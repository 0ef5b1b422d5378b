/**
 * JavaScript's text-to-number conversions as the screens use them:
 * `parseInt(s)` (base 10), `parseFloat(s)` and the NaN test of `Number(s)`
 * that `isNaN(s)` performs. A NaN result is `None`.
 */
module JsNumber {
  import opened Wrappers
  import opened JsText

  /** The longest prefix of `s` made of decimal digits. */
  function DigitRun(s: string): (r: string)
    ensures |r| <= |s| && r == s[..|r|] && AllDigits(r)
    ensures |r| == |s| || !IsDigit(s[|r|])
  {
    if s != [] && IsDigit(s[0]) then [s[0]] + DigitRun(s[1..]) else []
  }

  /** An optional leading sign: whether it is '-', and the text after it. */
  function SplitSign(s: string): (bool, string) {
    if s != [] && (s[0] == '-' || s[0] == '+') then (s[0] == '-', s[1..]) else (false, s)
  }

  /** `parseInt(s)`: leading white space, an optional sign, then as many digits as there are. */
  function ParseInt(s: string): Option<int> {
    var (negative, rest) := SplitSign(TrimStart(s));
    var digits := DigitRun(rest);
    if digits == [] then None
    else Some(if negative then -(DigitsValue(digits) as int) else DigitsValue(digits) as int)
  }

  /** `parseFloat(s)`: like `parseInt`, followed by an optional '.' and fraction digits. */
  function ParseFloat(s: string): Option<real> {
    var (negative, rest) := SplitSign(TrimStart(s));
    var whole := DigitRun(rest);
    var after := rest[|whole|..];
    var fraction := if after != [] && after[0] == '.' then DigitRun(after[1..]) else [];
    if whole == [] && fraction == [] then None
    else
      var v := DigitsValue(whole) as real + DigitsValue(fraction) as real / Pow10(|fraction|) as real;
      Some(if negative then -v else v)
  }

  /** The whole (trimmed) text is a signed decimal literal such as `12`, `-3.`, `+.5` or `7.25`. */
  predicate IsDecimalLiteral(t: string) {
    var (_, rest) := SplitSign(t);
    var whole := DigitRun(rest);
    var after := rest[|whole|..];
    if after == [] then whole != []
    else
      after[0] == '.'
      && var fraction := DigitRun(after[1..]);
      |fraction| == |after| - 1 && (whole != [] || fraction != [])
  }

  /** `isNaN(s)` for a string `s`, i.e. `Number(s)` is NaN; blank text converts to 0. */
  predicate NumberIsNaN(s: string) {
    var t := Trim(s);
    t != [] && !IsDecimalLiteral(t)
  }

  lemma DigitRunOfDigits(s: string)
    requires AllDigits(s)
    ensures DigitRun(s) == s
  {
  }

  /** Text that starts and ends with a digit is left alone by `trim`. */
  lemma TrimDigits(s: string)
    requires s != [] && AllDigits(s)
    ensures TrimStart(s) == s && Trim(s) == s
  {
    DigitNotSpace(s[0]);
    DigitNotSpace(s[|s| - 1]);
    TrimUnspaced(s);
  }

  /** A digit is not white space. */
  lemma DigitNotSpace(c: char)
    requires IsDigit(c)
    ensures !IsSpace(c)
  {
  }

  /** A digit string holds its own value under `parseInt` and under `parseFloat`. */
  lemma ParseDigits(s: string)
    requires s != [] && AllDigits(s)
    ensures ParseInt(s) == Some(DigitsValue(s) as int)
    ensures ParseFloat(s) == Some(DigitsValue(s) as real)
  {
    TrimDigits(s);
    DigitRunOfDigits(s);
    assert SplitSign(s) == (false, s);
    assert s[|s|..] == [];
  }

  /** A digit string is a number to `isNaN`. */
  lemma DigitsNotNaN(s: string)
    requires s != [] && AllDigits(s)
    ensures !NumberIsNaN(s)
  {
    TrimDigits(s);
    DigitRunOfDigits(s);
    assert SplitSign(s) == (false, s);
    assert s[|s|..] == [];
  }

  /** `parseInt(n.toString())` gives `n` back. */
  lemma ParseIntOfNatToString(n: nat)
    ensures ParseInt(NatToString(n)) == Some(n as int)
  {
    ParseDigits(NatToString(n));
    NatToStringRoundTrip(n);
  }
}
