/** Decimal numerals: printed as fmt's %d does, parsed as strconv.Atoi does. */
module Decimal {
  import opened Wrappers

  predicate IsDigit(c: char) {
    '0' <= c <= '9'
  }

  function DigitChar(d: nat): (c: char)
    requires d < 10
    ensures IsDigit(c) && DigitValue(c) == d
  {
    '0' + d as char
  }

  function DigitValue(c: char): (d: nat)
    requires IsDigit(c)
    ensures d < 10
  {
    (c - '0') as nat
  }

  function PrintNat(n: nat): (s: string)
    ensures s != [] && forall c :: c in s ==> IsDigit(c)
  {
    if n < 10 then [DigitChar(n)] else PrintNat(n / 10) + [DigitChar(n % 10)]
  }

  function PrintInt(n: int): string {
    if n < 0 then "-" + PrintNat(-n) else PrintNat(n)
  }

  /** The value of a digit string; the empty string has value zero. */
  function NatOf(s: string): nat
    requires forall c :: c in s ==> IsDigit(c)
  {
    if s == [] then 0
    else
      assert forall c :: c in s[..|s| - 1] ==> c in s;
      10 * NatOf(s[..|s| - 1]) + DigitValue(s[|s| - 1])
  }

  lemma {:induction false} NatRoundTrip(n: nat)
    ensures NatOf(PrintNat(n)) == n
  {
    if n < 10 {
      assert NatOf([]) == 0;
      assert [DigitChar(n)][..0] == [];
    } else {
      NatRoundTrip(n / 10);
      var s := PrintNat(n);
      assert s[..|s| - 1] == PrintNat(n / 10);
    }
  }

  lemma PrintIntInjective(m: int, n: int)
    requires PrintInt(m) == PrintInt(n)
    ensures m == n
  {
    hide PrintNat, NatOf;
    SignShows(m);
    SignShows(n);
    if m < 0 {
      assert PrintInt(m)[1..] == PrintNat(-m) && PrintInt(n)[1..] == PrintNat(-n);
      NatRoundTrip(-m);
      NatRoundTrip(-n);
    } else {
      NatRoundTrip(m);
      NatRoundTrip(n);
    }
  }

  lemma SignShows(n: int)
    ensures PrintInt(n)[0] == '-' <==> n < 0
  {
    if n >= 0 {
      assert PrintNat(n)[0] in PrintNat(n);
    }
  }

  const MAX_INT := 0x7FFF_FFFF_FFFF_FFFF

  predicate AllDigits(s: string) {
    forall c :: c in s ==> IsDigit(c)
  }

  /** strconv.Atoi: an optional sign and digits, within 64 bits. */
  function Atoi(s: string): Option<int> {
    var signed := s != "" && (s[0] == '-' || s[0] == '+');
    var digits := if signed then s[1..] else s;
    if digits == "" || !AllDigits(digits) then None
    else
      var n: int := if signed && s[0] == '-' then 0 - NatOf(digits) else NatOf(digits);
      if -MAX_INT - 1 <= n <= MAX_INT then Some(n) else None
  }

  lemma AtoiRoundTrip(n: int)
    ensures Atoi(PrintInt(n)) == if -MAX_INT - 1 <= n <= MAX_INT then Some(n) else None
  {
    var s, m := PrintInt(n), if n < 0 then -n else n;
    SignShows(n);
    NatRoundTrip(m);
    assert PrintNat(m)[0] in PrintNat(m);
    hide PrintNat, NatOf;
    assert n < 0 ==> s[1..] == PrintNat(m);
  }

  /** Numbers outside the range are moved to the nearer end; anything that is not a 64-bit
      number becomes the lower end. */
  function ClampInt(s: string, lo: int, hi: int): (n: int)
    requires lo <= hi
    ensures lo <= n <= hi
  {
    var parsed := Atoi(s);
    if parsed.None? || parsed.value < lo then lo else if parsed.value > hi then hi else parsed.value
  }

  lemma ClampPrinted(n: int, lo: int, hi: int)
    requires lo <= hi
    ensures ClampInt(PrintInt(n), lo, hi)
         == if n > MAX_INT || n < lo || n < -MAX_INT - 1 then lo else if n > hi then hi else n
  {
    AtoiRoundTrip(n);
  }

  /** Only digits after at most one sign are a number; anything else becomes the lower end. */
  lemma OnlyNumeralsParse(s: string, lo: int, hi: int)
    requires lo <= hi
    ensures var numeral := if s != "" && (s[0] == '-' || s[0] == '+') then s[1..] else s;
      numeral == "" || (exists i :: 0 <= i < |numeral| && !IsDigit(numeral[i])) ==>
        Atoi(s) == None && ClampInt(s, lo, hi) == lo
  {
  }
}
