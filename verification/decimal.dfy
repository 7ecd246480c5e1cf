/** Decimal numerals: the rendering `to_string` gives a column index, and the radix-10 parser
    behind `str::parse::<i32>` (Rust's `i32::from_str`). */
module Decimal {
  import opened Wrappers

  const I32_MIN: int := -0x8000_0000
  const I32_MAX: int := 0x7FFF_FFFF

  predicate InI32(n: int)
  {
    I32_MIN <= n <= I32_MAX
  }

  /** An ASCII decimal digit (`char::is_digit(10)`). */
  predicate IsDigit(c: char)
  {
    '0' <= c <= '9'
  }

  function DigitValue(c: char): (d: nat)
    requires IsDigit(c)
    ensures d < 10
  {
    c as int - '0' as int
  }

  function DigitChar(d: nat): (c: char)
    requires d < 10
    ensures IsDigit(c) && DigitValue(c) == d
  {
    ('0' as int + d) as char
  }

  predicate AllDigits(s: string)
  {
    forall i :: 0 <= i < |s| ==> IsDigit(s[i])
  }

  /** The value of a run of decimal digits, most significant first; leading zeros allowed. */
  function DigitsValue(s: string): nat
    requires AllDigits(s)
  {
    if s == [] then 0 else 10 * DigitsValue(s[..|s| - 1]) + DigitValue(s[|s| - 1])
  }

  /** A non-empty run of digits, optionally preceded by one '+' or '-'. */
  predicate IsNumeral(s: string)
  {
    if |s| > 0 && (s[0] == '+' || s[0] == '-') then |s| > 1 && AllDigits(s[1..])
    else |s| > 0 && AllDigits(s)
  }

  function NumeralValue(s: string): int
    requires IsNumeral(s)
  {
    if s[0] == '-' then -(DigitsValue(s[1..]) as int)
    else if s[0] == '+' then DigitsValue(s[1..])
    else DigitsValue(s)
  }

  function Signed(positive: bool, m: nat): int
  {
    if positive then m else -(m as int)
  }

  /** `to_string` on an unsigned integer: its shortest decimal numeral. */
  function ShowNat(n: nat): (s: string)
    ensures |s| > 0 && AllDigits(s) && DigitsValue(s) == n
    ensures |s| > 1 ==> s[0] != '0'
  {
    if n < 10 then [DigitChar(n)]
    else
      var s := ShowNat(n / 10) + [DigitChar(n % 10)];
      assert s[..|s| - 1] == ShowNat(n / 10);
      s
  }

  /** The decimal numeral of an integer, with a leading '-' when negative. */
  function ShowInt(n: int): (s: string)
    ensures IsNumeral(s) && NumeralValue(s) == n
    ensures s[0] == '-' <==> n < 0
  {
    if n < 0 then
      var s := "-" + ShowNat(-n);
      assert s[1..] == ShowNat(-n);
      s
    else ShowNat(n)
  }

  /** A prefix of a digit run is worth no more than the whole run. */
  lemma {:induction false} PrefixValueBelow(s: string, k: nat)
    requires AllDigits(s) && k <= |s|
    ensures AllDigits(s[..k]) && DigitsValue(s[..k]) <= DigitsValue(s)
    decreases |s|
  {
    if k < |s| {
      var init := s[..|s| - 1];
      assert init[..k] == s[..k];
      PrefixValueBelow(init, k);
    } else {
      assert s[..k] == s;
    }
  }

  /** Appending a digit multiplies the value by ten and adds the digit. */
  lemma DigitsValueAppend(s: string, c: char)
    requires AllDigits(s) && IsDigit(c)
    ensures AllDigits(s + [c]) && DigitsValue(s + [c]) == 10 * DigitsValue(s) + DigitValue(c)
  {
    assert (s + [c])[..|s|] == s;
  }

  /** The digit loop of `i32::from_str`: `digits[..i]` has been read into `acc`; each further
      digit multiplies by ten and adds (or, for a negative numeral, subtracts) its value,
      failing as soon as the running value leaves the i32 range or a non-digit appears. */
  function Accumulate(digits: string, i: nat, acc: int, positive: bool): (r: Option<int>)
    requires i <= |digits| && AllDigits(digits[..i])
    requires acc == Signed(positive, DigitsValue(digits[..i])) && InI32(acc)
    ensures r.Some? <==> AllDigits(digits) && InI32(Signed(positive, DigitsValue(digits)))
    ensures r.Some? ==> AllDigits(digits) && r.value == Signed(positive, DigitsValue(digits))
    decreases |digits| - i
  {
    if i == |digits| then
      assert digits[..i] == digits;
      Some(acc)
    else if !IsDigit(digits[i]) then None
    else
      var d := DigitValue(digits[i]);
      var next := if positive then acc * 10 + d else acc * 10 - d;
      assert digits[..i + 1] == digits[..i] + [digits[i]];
      DigitsValueAppend(digits[..i], digits[i]);
      if !InI32(next) then
        (if AllDigits(digits) then PrefixValueBelow(digits, i + 1); None else None)
      else Accumulate(digits, i + 1, next, positive)
  }

  /** `i32::from_str`: an optional sign (a lone sign is rejected) and then digits. */
  function StrToI32(s: string): (r: Option<int>)
    ensures r.Some? <==> IsNumeral(s) && InI32(NumeralValue(s))
    ensures r.Some? ==> IsNumeral(s) && r.value == NumeralValue(s)
  {
    if |s| == 0 then None
    else if (s[0] == '+' || s[0] == '-') && |s| == 1 then None
    else if s[0] == '+' then Accumulate(s[1..], 0, 0, true)
    else if s[0] == '-' then Accumulate(s[1..], 0, 0, false)
    else Accumulate(s, 0, 0, true)
  }

  /** Every i32 survives being written out in decimal and read back. */
  lemma ShowIntRoundTrip(n: int)
    requires InI32(n)
    ensures StrToI32(ShowInt(n)) == Some(n)
  {
  }
}
