/**
 * Decimal text and 32-bit unsigned numbers: the subset of `u32::from_str` the
 * record parser relies on, and `u32::to_string`.
 */
module Decimal {
  import opened Wrappers

  /** One more than the largest `u32`. */
  const U32Limit: nat := 0x1_0000_0000

  /** The values of a `u32`. */
  type U32 = n: nat | n < U32Limit

  predicate IsDigit(c: char) {
    '0' <= c <= '9'
  }

  predicate AllDigits(s: string) {
    forall i | 0 <= i < |s| :: IsDigit(s[i])
  }

  function DigitValue(c: char): (d: nat)
    requires IsDigit(c)
    ensures d < 10
  {
    c as int - '0' as int
  }

  function DigitChar(d: nat): (c: char)
    requires d < 10
    ensures IsDigit(c) && DigitValue(c) == d
  {
    ('0' as int + d) as char
  }

  /** The number a string of decimal digits denotes, most significant first. */
  function ValueOf(s: string): nat
    requires AllDigits(s)
  {
    if s == [] then 0 else 10 * ValueOf(s[..|s| - 1]) + DigitValue(s[|s| - 1])
  }

  /** The text after an optional leading `+`. */
  function Unsigned(s: string): (d: string)
    ensures |d| == |s| || (|s| > 0 && s[0] == '+' && d == s[1..])
  {
    if |s| > 0 && s[0] == '+' then s[1..] else s
  }

  /** `u32::from_str`: an optional `+`, then one or more decimal digits whose value
      fits in 32 bits; anything else is rejected. */
  function ParseU32(s: string): (r: Option<nat>)
    ensures r.Some? <==> Unsigned(s) != [] && AllDigits(Unsigned(s)) && ValueOf(Unsigned(s)) < U32Limit
    ensures r.Some? ==> r.value == ValueOf(Unsigned(s)) && r.value < U32Limit
    ensures r.Some? ==> |s| > 0 && (IsDigit(s[0]) || s[0] == '+')
    ensures s == [] ==> r.None?
  {
    var digits := Unsigned(s);
    if digits == [] || !AllDigits(digits) then None
    else if ValueOf(digits) < U32Limit then Some(ValueOf(digits))
    else None
  }

  /** `parse().unwrap_or_default()` on a `u32`: a rejected text becomes 0. */
  function ParseU32OrZero(s: string): (n: U32)
    ensures ParseU32(s).None? ==> n == 0
    ensures ParseU32(s).Some? ==> n == ParseU32(s).value
  {
    match ParseU32(s)
    case Some(n) => n
    case None => 0
  }

  /** `to_string` on an unsigned number: its decimal digits without leading zeros. */
  function ToDecimal(n: nat): (s: string)
    ensures |s| > 0 && AllDigits(s)
    ensures |s| > 1 ==> s[0] != '0'
  {
    if n < 10 then [DigitChar(n)] else ToDecimal(n / 10) + [DigitChar(n % 10)]
  }

  lemma {:induction false} ValueOfToDecimal(n: nat)
    ensures ValueOf(ToDecimal(n)) == n
  {
    if n >= 10 {
      ValueOfToDecimal(n / 10);
      var s := ToDecimal(n);
      assert s[..|s| - 1] == ToDecimal(n / 10);
    }
  }

  /** The text a number is counted under parses back to that number. */
  lemma DecimalRoundTrip(n: nat)
    requires n < U32Limit
    ensures ParseU32(ToDecimal(n)) == Some(n)
  {
    ValueOfToDecimal(n);
  }

  /** The digits of the largest `u32`, and of the number after it. */
  lemma LimitDigits()
    ensures ValueOf("4294967295") == U32Limit - 1
    ensures ValueOf("4294967296") == U32Limit
  {
    var max := "4294967295";
    assert ValueOf(max[..1]) == 4;
    assert ValueOf(max[..2]) == 42 by { assert max[..2][..1] == max[..1]; }
    assert ValueOf(max[..3]) == 429 by { assert max[..3][..2] == max[..2]; }
    assert ValueOf(max[..4]) == 4294 by { assert max[..4][..3] == max[..3]; }
    assert ValueOf(max[..5]) == 42949 by { assert max[..5][..4] == max[..4]; }
    assert ValueOf(max[..6]) == 429496 by { assert max[..6][..5] == max[..5]; }
    assert ValueOf(max[..7]) == 4294967 by { assert max[..7][..6] == max[..6]; }
    assert ValueOf(max[..8]) == 42949672 by { assert max[..8][..7] == max[..7]; }
    assert ValueOf(max[..9]) == 429496729 by { assert max[..9][..8] == max[..8]; }
    assert ValueOf(max) == 4294967295 by { assert max[..9] == max[..|max| - 1]; }
    var over := "4294967296";
    assert over[..9] == max[..9];
    assert ValueOf(over) == 4294967296 by { assert over[..9] == over[..|over| - 1]; }
  }

  /** Texts that are not a `u32` in decimal: empty, a lone sign, a minus sign, a
      letter, and the first number past the 32-bit range. */
  lemma RejectedTexts()
    ensures ParseU32("") == None
    ensures ParseU32("+") == None
    ensures ParseU32("-1") == None
    ensures ParseU32("notanumber") == None
    ensures ParseU32("4294967296") == None
  {
    assert Unsigned("+") == [];
    assert !IsDigit('-') && Unsigned("-1") == "-1" && !AllDigits("-1");
    assert !IsDigit('n') && Unsigned("notanumber") == "notanumber" && !AllDigits("notanumber");
    LimitDigits();
  }

  /** The largest `u32`, and a number with a leading `+`, are accepted. */
  lemma AcceptedTexts()
    ensures ParseU32("4294967295") == Some(U32Limit - 1)
    ensures ParseU32("+42") == Some(42)
  {
    LimitDigits();
    assert Unsigned("+42") == "42";
    assert ValueOf("42") == 42 by { assert "42"[..1] == "4"; }
  }
}
