/**
 * Decimal text of integer values, as JavaScript's `'' + n` produces it for
 * an integer-valued number, and the "+"-prefixed form the game uses for
 * positive charges and points.
 */
module NumberText {
  import opened Wrappers

  predicate IsDigit(c: char) {
    '0' <= c <= '9'
  }

  function DigitChar(d: nat): (c: char)
    requires d < 10
    ensures IsDigit(c)
  {
    ('0' as int + d) as char
  }

  function DigitValue(c: char): (d: nat)
    requires IsDigit(c)
    ensures d < 10
  {
    c as int - '0' as int
  }

  predicate AllDigits(s: string) {
    forall i | 0 <= i < |s| :: IsDigit(s[i])
  }

  /** Decimal digits of `n`, most significant first, with no leading zero. */
  function NatToString(n: nat): (r: string)
    ensures |r| >= 1 && AllDigits(r)
    ensures |r| > 1 ==> r[0] != '0'
  {
    if n < 10 then [DigitChar(n)]
    else
      var prefix := NatToString(n / 10);
      assert (prefix + [DigitChar(n % 10)])[0] == prefix[0];
      prefix + [DigitChar(n % 10)]
  }

  /** Decimal text of `v`: a minus sign for negative values, then the digits. */
  function IntToString(v: int): (r: string) {
    if v < 0 then "-" + NatToString(-v) else NatToString(v)
  }

  /** Value of a non-empty string of decimal digits. */
  function ParseNat(s: string): nat
    requires |s| >= 1 && AllDigits(s)
  {
    if |s| == 1 then DigitValue(s[0])
    else ParseNat(s[..|s| - 1]) * 10 + DigitValue(s[|s| - 1])
  }

  /** Reads an optional sign followed by at least one decimal digit. */
  function ParseInt(s: string): Option<int> {
    if |s| >= 2 && s[0] == '-' && AllDigits(s[1..]) then Some(-(ParseNat(s[1..]) as int))
    else if |s| >= 2 && s[0] == '+' && AllDigits(s[1..]) then Some(ParseNat(s[1..]))
    else if |s| >= 1 && AllDigits(s) then Some(ParseNat(s))
    else None
  }

  /** Reading back the digits of `n` gives `n`. */
  lemma {:induction false} ParseNatToString(n: nat)
    ensures ParseNat(NatToString(n)) == n
  {
    if n >= 10 {
      var prefix := NatToString(n / 10);
      var r := prefix + [DigitChar(n % 10)];
      assert r[..|r| - 1] == prefix;
      ParseNatToString(n / 10);
    }
  }

  /** Reading back the text of `v` gives `v`. */
  lemma ParseIntToString(v: int)
    ensures ParseInt(IntToString(v)) == Some(v)
  {
    ParseNatToString(if v < 0 then -v else v);
    if v < 0 {
      assert ("-" + NatToString(-v))[1..] == NatToString(-v);
    }
  }

  /**
   * The text shown for a value: a "+" in front when `prependPlusSign` is set
   * and the value is positive, then the value's decimal text.
   */
  function DisplayText(prependPlusSign: bool, v: int): string {
    (if prependPlusSign && v > 0 then "+" else "") + IntToString(v)
  }

  /**
   * The displayed text starts with "+" exactly when a plus sign was requested
   * and the value is positive, with "-" exactly when the value is negative,
   * and otherwise with a digit; reading it back gives the value.
   */
  lemma DisplayTextMeaning(prependPlusSign: bool, v: int)
    ensures var t := DisplayText(prependPlusSign, v);
      |t| >= 1 &&
      (t[0] == '+' <==> prependPlusSign && v > 0) &&
      (t[0] == '-' <==> v < 0) &&
      ParseInt(t) == Some(v)
  {
    var digits := NatToString(if v < 0 then -v else v);
    ParseNatToString(if v < 0 then -v else v);
    assert IsDigit(digits[0]);
    var t := DisplayText(prependPlusSign, v);
    if prependPlusSign && v > 0 {
      assert t == "+" + digits;
      assert t[1..] == digits;
    } else if v < 0 {
      assert t == "-" + digits;
      assert t[1..] == digits;
    } else {
      assert t == digits;
    }
  }
}
