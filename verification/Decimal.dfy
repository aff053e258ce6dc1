/** Go's base-10 conversions between integers and text (`strconv.Itoa`, `strconv.Atoi`, `%d`).
    A Go string is a sequence of bytes; here it is a `string` with one `char` per byte. */
module Decimal {
  import opened Options

  const MIN_INT64: int := -0x8000_0000_0000_0000
  const MAX_INT64: int := 0x7fff_ffff_ffff_ffff

  predicate IsDigit(c: char) {
    '0' <= c <= '9'
  }

  predicate AllDigits(s: string) {
    forall i :: 0 <= i < |s| ==> IsDigit(s[i])
  }

  function DigitChar(d: nat): char
    requires d < 10
  {
    ('0' as int + d) as char
  }

  function DigitValue(c: char): nat
    requires IsDigit(c)
  {
    c as int - '0' as int
  }

  function NatDigits(n: nat): (s: string)
    ensures s != "" && AllDigits(s)
  {
    if n < 10 then [DigitChar(n)] else NatDigits(n / 10) + [DigitChar(n % 10)]
  }

  function DigitsValue(s: string): nat
    requires AllDigits(s)
  {
    if s == "" then 0 else 10 * DigitsValue(s[..|s| - 1]) + DigitValue(s[|s| - 1])
  }

  function Itoa(n: int): string {
    if n < 0 then "-" + NatDigits(-n) else NatDigits(n)
  }

  /** An optional sign, then at least one digit; anything else, or a value outside the
      64-bit range, is an error. */
  function Atoi(s: string): Option<int> {
    var signed := s != "" && (s[0] == '-' || s[0] == '+');
    var digits := if signed then s[1..] else s;
    if digits == "" || !AllDigits(digits) then
      None
    else
      var magnitude: int := DigitsValue(digits);
      var value: int := if s[0] == '-' then -magnitude else magnitude;
      if MIN_INT64 <= value <= MAX_INT64 then Some(value) else None
  }

  lemma {:induction false} DigitsRoundTrip(n: nat)
    ensures DigitsValue(NatDigits(n)) == n
  {
    var s := NatDigits(n);
    if n < 10 {
      assert s[..|s| - 1] == "";
    } else {
      assert s[..|s| - 1] == NatDigits(n / 10);
      DigitsRoundTrip(n / 10);
    }
  }

  /** The number a decimal text denotes, of any size. */
  function Denotes(s: string): int {
    var negative := s != "" && s[0] == '-';
    var digits := if negative then s[1..] else s;
    var magnitude: int := if AllDigits(digits) then DigitsValue(digits) else 0;
    if negative then -magnitude else magnitude
  }

  lemma ItoaDenotes(n: int)
    ensures Denotes(Itoa(n)) == n
  {
    if n < 0 {
      DigitsRoundTrip(-n);
      assert Itoa(n)[1..] == NatDigits(-n);
    } else {
      DigitsRoundTrip(n);
      assert IsDigit(Itoa(n)[0]);
    }
  }

  lemma AtoiItoa(n: int)
    requires MIN_INT64 <= n <= MAX_INT64
    ensures Atoi(Itoa(n)) == Some(n)
  {
    ItoaDenotes(n);
    if n < 0 {
      assert Itoa(n)[1..] == NatDigits(-n);
    } else {
      assert IsDigit(Itoa(n)[0]);
    }
  }

  /** No bound is needed to tell two numbers apart. */
  lemma ItoaInjective(a: int, b: int)
    ensures Itoa(a) == Itoa(b) <==> a == b
  {
    ItoaDenotes(a);
    ItoaDenotes(b);
  }

  /** Decimal text never contains a separator used around it. */
  lemma ItoaCharacters(n: int, c: char)
    requires !IsDigit(c) && c != '-'
    ensures c !in Itoa(n)
  {
  }
}
