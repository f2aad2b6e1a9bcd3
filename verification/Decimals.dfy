/** Decimal notation of numbers, and that it can be read back. */
module Decimals {
  import opened Seqs

  const DIGITS := "0123456789"

  function Decimal(n: nat): (s: string)
    ensures s != ""
  {
    if n < 10 then [DIGITS[n]] else Decimal(n / 10) + [DIGITS[n % 10]]
  }

  predicate IsDigit(c: char) { '0' <= c <= '9' }

  /** The number a string of digits denotes; other characters have no meaning. */
  function Value(s: string): nat {
    if s == "" then 0
    else 10 * Value(s[..|s| - 1]) + if IsDigit(s[|s| - 1]) then s[|s| - 1] as nat - '0' as nat else 0
  }

  lemma DigitValue(d: nat)
    requires d < 10
    ensures IsDigit(DIGITS[d]) && DIGITS[d] as nat - '0' as nat == d
  {
  }

  /** Printing and reading back gives the number; only digits are printed. */
  lemma {:induction false} ValueOfDecimal(n: nat)
    ensures Value(Decimal(n)) == n && forall c :: c in Decimal(n) ==> IsDigit(c)
  {
    DigitValue(n % 10);
    if n < 10 {
      assert [DIGITS[n]][..0] == "";
    } else {
      ValueOfDecimal(n / 10);
      var s := Decimal(n);
      assert s[..|s| - 1] == Decimal(n / 10);
    }
  }

  lemma DecimalInjective(m: nat, n: nat)
    requires Decimal(m) == Decimal(n)
    ensures m == n
  {
    ValueOfDecimal(m);
    ValueOfDecimal(n);
  }

  // Integers

  function Printed(n: int): string { if n < 0 then "-" + Decimal(-n) else Decimal(n) }

  predicate AllDigits(s: string) { s != "" && forall i :: 0 <= i < |s| ==> IsDigit(s[i]) }

  /** `int(text)` for a plain decimal number with an optional sign. */
  function ParseInt(s: string): Option<int> {
    if AllDigits(s) then Some(Value(s))
    else if s != "" && (s[0] == '-' || s[0] == '+') && AllDigits(s[1..])
    then var n: int := Value(s[1..]); Some(if s[0] == '-' then -n else n)
    else None
  }

  lemma DecimalDigits(n: nat)
    ensures AllDigits(Decimal(n)) && Value(Decimal(n)) == n
  {
    ValueOfDecimal(n);
    forall i | 0 <= i < |Decimal(n)| ensures IsDigit(Decimal(n)[i]) { assert Decimal(n)[i] in Decimal(n); }
  }

  lemma SignedParses(t: string)
    requires AllDigits(t)
    ensures !AllDigits("-" + t) && ParseInt("-" + t) == Some(-(Value(t) as int))
  {
    var s := "-" + t;
    assert s[0] == '-' && s[1..] == t;
  }

  lemma ParseIsPrintInverse(n: int)
    ensures ParseInt(Printed(n)) == Some(n)
    ensures AllDigits(Printed(n)) <==> n >= 0
  {
    if n < 0 {
      DecimalDigits(-n);
      SignedParses(Decimal(-n));
    } else {
      DecimalDigits(n);
    }
  }
}
