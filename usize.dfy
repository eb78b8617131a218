/**
 * Rust's `usize` as the bot uses it: parsed from text with `str::parse::<usize>()`
 * (for a card id in a file name and for a card number typed by a user) and
 * printed in decimal by `format!("{index}")`. The target is 64-bit.
 */
module Usize {
  import opened Wrappers

  /** The largest `usize` on a 64-bit target. */
  const USIZE_MAX: nat := 0xFFFF_FFFF_FFFF_FFFF

  predicate IsDigit(c: char) { '0' <= c <= '9' }

  predicate AllDigits(s: string) { forall i :: 0 <= i < |s| ==> IsDigit(s[i]) }

  function DigitChar(d: nat): (c: char)
    requires d < 10
    ensures IsDigit(c)
  {
    ('0' as int + d) as char
  }

  /** The value of a string of ASCII decimal digits, most significant first. */
  function DigitsValue(s: string): nat
    requires AllDigits(s)
  {
    if s == [] then 0
    else DigitsValue(s[..|s| - 1]) * 10 + (s[|s| - 1] as int - '0' as int)
  }

  /**
   * `<usize as FromStr>::from_str`: an optional leading `+`, then one or more
   * ASCII digits and nothing else, whose value fits in a `usize`. The empty
   * string, a lone sign, a `-`, any other character and overflow all fail.
   * (The standard library checks for overflow digit by digit; since the running
   * value never decreases, that fails exactly when the final value is too big.)
   */
  function Parse(s: string): (r: Option<nat>)
    ensures r.Some? ==> r.value <= USIZE_MAX
    ensures s == [] ==> r.None?
    ensures |s| > 0 && s[0] == '-' ==> r.None?
    ensures s == "+" ==> r.None?
  {
    var digits := if |s| > 0 && s[0] == '+' then s[1..] else s;
    if digits != [] && AllDigits(digits) && DigitsValue(digits) <= USIZE_MAX
    then Some(DigitsValue(digits))
    else None
  }

  /** Decimal text of `n` without sign or leading zeros: Rust's `Display` for integers. */
  function Format(n: nat): (r: string)
    ensures |r| >= 1 && AllDigits(r)
    ensures r[0] == '0' ==> n == 0
  {
    if n < 10 then [DigitChar(n)] else Format(n / 10) + [DigitChar(n % 10)]
  }

  /** Reading the decimal text of `n` gives `n` back. */
  lemma {:induction false} FormatValue(n: nat)
    ensures DigitsValue(Format(n)) == n
  {
    if n >= 10 {
      var s := Format(n / 10);
      var c := DigitChar(n % 10);
      assert (s + [c])[..|s|] == s;
      FormatValue(n / 10);
    }
  }

  /** Every `usize` survives printing and parsing, with or without a `+` sign. */
  lemma ParseFormat(n: nat)
    requires n <= USIZE_MAX
    ensures Parse(Format(n)) == Some(n)
    ensures Parse("+" + Format(n)) == Some(n)
  {
    FormatValue(n);
    assert ("+" + Format(n))[1..] == Format(n);
  }

  /** Any character other than a digit after the optional leading `+` makes parsing fail. */
  lemma ParseRejectsNonDigit(s: string, i: nat)
    requires (if |s| > 0 && s[0] == '+' then 1 else 0) <= i < |s| && !IsDigit(s[i])
    ensures Parse(s) == None
  {
    var start := if |s| > 0 && s[0] == '+' then 1 else 0;
    assert !IsDigit(s[start..][i - start]);
  }

  /** A non-empty run of digits, leading zeros allowed, parses to its value when that
      fits in a `usize` and overflows otherwise; a leading `+` changes nothing. */
  lemma ParseDigits(s: string)
    requires |s| > 0 && AllDigits(s)
    ensures Parse(s) == if DigitsValue(s) <= USIZE_MAX then Some(DigitsValue(s)) else None
    ensures Parse("+" + s) == Parse(s)
  {
    assert ("+" + s)[1..] == s;
  }

  /** `"007"` reads as 7: leading zeros do not stop a number from parsing. */
  lemma ParseLeadingZeros()
    ensures Parse("007") == Some(7)
  {
    assert DigitsValue("007") == DigitsValue("00") * 10 + 7;
    assert DigitsValue("00") == DigitsValue("0") * 10;
  }

  /** A value beyond `usize` overflows: its decimal text does not parse. */
  lemma ParseOverflow(n: nat)
    requires n > USIZE_MAX
    ensures Parse(Format(n)) == None
    ensures Parse("+" + Format(n)) == None
  {
    FormatValue(n);
    assert ("+" + Format(n))[1..] == Format(n);
  }
}
