/** Decimal numerals as strconv and Kotlin print and parse them. */
module Numerals {
  import opened Options

  const INT32_MAX := 0x7fff_ffff
  const INT64_MAX := 0x7fff_ffff_ffff_ffff

  function Decimal(n: nat): string {
    if n < 10 then [('0' as int + n) as char] else Decimal(n / 10) + [('0' as int + n % 10) as char]
  }

  predicate IsDigit(c: char) { '0' <= c <= '9' }

  /** The value of a string of digits; None if any other char is in it. */
  function Value(s: string): Option<nat> {
    if s == "" then Some(0)
    else
      var front, c := Value(s[..|s|-1]), s[|s|-1];
      if front.Some? && IsDigit(c) then Some(10 * front.value + (c as int - '0' as int)) else None
  }

  /** A sign or none, then at least one digit: what Atoi and toIntOrNull take, before their range checks. */
  function Number(s: string): Option<int> {
    if s == "" then None
    else
      var signed := s[0] == '+' || s[0] == '-';
      var digits := if signed then s[1..] else s;
      var v := Value(digits);
      if digits == "" || v.None? then None
      else
        var n: int := if s[0] == '-' then 0 - v.value else v.value;
        Some(n)
  }

  lemma {:induction false} ValueOfDecimal(n: nat)
    ensures var d := Decimal(n); d != "" && Value(d) == Some(n) && forall i :: 0 <= i < |d| ==> IsDigit(d[i])
  {
    if n >= 10 {
      ValueOfDecimal(n / 10);
      assert Decimal(n)[..|Decimal(n)|-1] == Decimal(n / 10);
    } else {
      assert Decimal(n)[..0] == "";
    }
  }

  /** Parsing undoes printing. */
  lemma NumberOfDecimal(n: nat)
    ensures Number(Decimal(n)) == Some(n)
  {
    ValueOfDecimal(n);
    assert IsDigit(Decimal(n)[0]);
  }

  /** A sign in front is honoured, and nothing else is. */
  lemma NumberOfSigned(n: nat, sign: char)
    requires !IsDigit(sign)
    ensures Number([sign] + Decimal(n)) == if sign == '+' then Some(n) else if sign == '-' then Some(0 - n) else None
  {
    ValueOfDecimal(n);
    var s := [sign] + Decimal(n);
    assert s[1..] == Decimal(n);
    if sign != '+' && sign != '-' { NotANumber(s); }
  }

  lemma {:induction false} NotANumber(s: string)
    requires s != "" && !IsDigit(s[0])
    ensures Value(s) == None
  {
    if |s| > 1 { NotANumber(s[..|s|-1]); }
  }
}
