/** Decimal numerals, as the `%d` verb prints them and `Atoi` reads them. */
module Decimal {
  import opened Prelude
  import opened Clock

  predicate IsDigit(c: char) {
    '0' <= c <= '9'
  }

  function Digits(n: nat): (s: string)
    ensures s != [] && forall c :: c in s ==> IsDigit(c)
  {
    if n < 10 then [('0' as int + n) as char] else Digits(n / 10) + Digits(n % 10)
  }

  function Itoa(n: int): string {
    if n < 0 then "-" + Digits(-n) else Digits(n)
  }

  function Value(s: string): (n: int)
    requires forall c :: c in s ==> IsDigit(c)
    ensures n >= 0
  {
    if s == [] then 0
    else
      assert IsDigit(Last(s));
      10 * Value(s[..|s| - 1]) + (Last(s) as int - '0' as int)
  }

  /** A sign, then digits, within the range of a 64-bit integer. */
  function Atoi(s: string): (r: Option<int>)
    ensures r.Some? ==> MIN_DURATION <= r.value <= MAX_DURATION
  {
    var negative := s != [] && s[0] == '-';
    var body := if s != [] && (s[0] == '-' || s[0] == '+') then s[1..] else s;
    if body == [] || exists c :: c in body && !IsDigit(c) then None
    else
      var n := if negative then -Value(body) else Value(body);
      if MIN_DURATION <= n <= MAX_DURATION then Some(n) else None
  }

  lemma {:induction false} ValueOfDigits(n: nat)
    ensures Value(Digits(n)) == n
  {
    if n < 10 {
      var s := Digits(n);
      assert s[..|s| - 1] == [];
    } else {
      ValueOfDigits(n / 10);
      var s := Digits(n);
      assert Digits(n % 10) == [('0' as int + n % 10) as char];
      assert s[..|s| - 1] == Digits(n / 10);
    }
  }

  /** Printing a 64-bit integer and reading it back gives the integer. */
  lemma AtoiOfItoa(n: int)
    requires MIN_DURATION <= n <= MAX_DURATION
    ensures Atoi(Itoa(n)) == Some(n)
  {
    ValueOfDigits(if n < 0 then -n else n);
    if n < 0 {
      assert Itoa(n)[1..] == Digits(-n);
    } else {
      assert Itoa(n)[0] in Digits(n);
    }
  }

  lemma SignOfItoa(n: int)
    ensures Itoa(n) != [] && (Itoa(n)[0] == '-' <==> n < 0)
  {
    if n >= 0 {
      assert Itoa(n)[0] in Digits(n);
    }
  }

  lemma ItoaIsInjective(a: int, b: int)
    requires Itoa(a) == Itoa(b)
    ensures a == b
  {
    SignOfItoa(a);
    SignOfItoa(b);
    ValueOfDigits(if a < 0 then -a else a);
    ValueOfDigits(if b < 0 then -b else b);
    if a < 0 {
      assert Itoa(a)[1..] == Digits(-a) && Itoa(b)[1..] == Digits(-b);
    }
  }
}
