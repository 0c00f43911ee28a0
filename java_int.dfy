/**
 * `Integer.parseInt` and the decimal and hexadecimal formatting of non-negative numbers
 * (`"" + n`, `String.format("%x", n)`), with ASCII digits.
 */
module JavaInt {
  import opened Outcomes

  const MinValue: int := -0x8000_0000
  const MaxValue: int := 0x7fff_ffff

  type Radix = r: nat | 2 <= r <= 36 witness 10

  /** `Character.digit(c, radix)` on ASCII: the digit's value, or -1. */
  function DigitValue(c: char, radix: Radix): (v: int)
    ensures -1 <= v < radix
  {
    var v :=
      if '0' <= c <= '9' then c as int - '0' as int
      else if 'a' <= c <= 'z' then c as int - 'a' as int + 10
      else if 'A' <= c <= 'Z' then c as int - 'A' as int + 10
      else -1;
    if v < radix then v else -1
  }

  predicate IsDigits(s: string, radix: Radix) {
    forall i | 0 <= i < |s| :: DigitValue(s[i], radix) >= 0
  }

  /** The value of a digit string, most significant digit first. */
  function DigitsValue(s: string, radix: Radix): nat
    requires IsDigits(s, radix)
    decreases |s|
  {
    if s == [] then 0
    else DigitsValue(s[..|s| - 1], radix) * radix + DigitValue(s[|s| - 1], radix)
  }

  /**
   * `Integer.parseInt(s, radix)`; None stands for NumberFormatException: an empty string, a lone
   * sign, a char that is not a digit of the radix, or a value outside the 32-bit range.
   */
  function ParseInt(s: string, radix: Radix): (r: Option<int>)
    ensures r.Some? ==> MinValue <= r.value <= MaxValue
  {
    if |s| == 0 then None
    else
      var digits := if s[0] == '-' || s[0] == '+' then s[1..] else s;
      if |digits| == 0 || !IsDigits(digits, radix) then None
      else
        var magnitude: int := DigitsValue(digits, radix);
        var v := if s[0] == '-' then -magnitude else magnitude;
        if MinValue <= v <= MaxValue then Some(v) else None
  }

  /** The lower-case digit for d. */
  function DigitChar(d: nat): char
    requires d < 36
  {
    if d < 10 then ('0' as int + d) as char else ('a' as int + d - 10) as char
  }

  /** A non-negative number in the radix: lower-case digits, no leading zero. */
  function Format(n: nat, radix: Radix): string
    decreases n
  {
    if n < radix then [DigitChar(n)]
    else
      DivShrinks(n, radix);
      Format(n / radix, radix) + [DigitChar(n % radix)]
  }

  /** `"" + n` for an int or long n >= 0. */
  function Decimal(n: nat): string { Format(n, 10) }

  /** `String.format("%x", n)` for n >= 0. */
  function Hex(n: nat): string { Format(n, 16) }

  lemma DigitOfDigitChar(d: nat, radix: Radix)
    requires d < radix
    ensures DigitValue(DigitChar(d), radix) == d
    ensures '0' <= DigitChar(d) <= '9' || 'a' <= DigitChar(d) <= 'z'
  {
  }

  /** The chars `Format` writes: digits of the radix, in lower case. */
  predicate IsFormatChar(c: char, radix: Radix) {
    DigitValue(c, radix) >= 0 && ('0' <= c <= '9' || 'a' <= c <= 'z')
  }

  lemma DivMod(n: nat, radix: Radix)
    ensures n == (n / radix) * radix + n % radix
  {
  }

  lemma DivShrinks(n: nat, radix: Radix)
    requires n >= radix
    ensures n / radix < n
  {
    var q := n / radix;
    DivMod(n, radix);
    assert q * radix == q * 2 + q * (radix - 2);
    assert q * (radix - 2) >= 0;
  }

  lemma {:induction false} FormatChars(n: nat, radix: Radix)
    ensures |Format(n, radix)| > 0
    ensures forall i | 0 <= i < |Format(n, radix)| :: IsFormatChar(Format(n, radix)[i], radix)
    decreases n
  {
    if n < radix {
      DigitOfDigitChar(n, radix);
    } else {
      DivShrinks(n, radix);
      FormatChars(n / radix, radix);
      DigitOfDigitChar(n % radix, radix);
    }
  }

  lemma {:induction false} FormatDigits(n: nat, radix: Radix)
    ensures IsDigits(Format(n, radix), radix) && DigitsValue(Format(n, radix), radix) == n
    decreases n
  {
    FormatChars(n, radix);
    var s := Format(n, radix);
    if n < radix {
      DigitOfDigitChar(n, radix);
    } else {
      var q, r := n / radix, n % radix;
      DivShrinks(n, radix);
      FormatDigits(q, radix);
      DigitOfDigitChar(r, radix);
      var front := Format(q, radix);
      assert s == front + [DigitChar(r)];
      assert s[..|s| - 1] == front;
      assert s[|s| - 1] == DigitChar(r);
      calc {
        DigitsValue(s, radix);
        DigitsValue(front, radix) * radix + DigitValue(DigitChar(r), radix);
        q * radix + r;
        { DivMod(n, radix); }
        n;
      }
    }
  }

  /** Parsing a formatted number gives it back: `parseInt` inverts `"" + n` and `%x`. */
  lemma ParseFormat(n: nat, radix: Radix)
    requires n <= MaxValue
    ensures ParseInt(Format(n, radix), radix) == Some(n)
  {
    FormatDigits(n, radix);
  }

  /** Formatted numbers hold only digits and lower-case letters: no sign, no space, no separator. */
  lemma FormatHasOnlyDigits(n: nat, radix: Radix, c: char)
    requires c in Format(n, radix)
    ensures '0' <= c <= '9' || 'a' <= c <= 'z'
  {
    FormatChars(n, radix);
  }
}
