/**
 * Base-ten ASCII rendering and parsing of integers, standing for Go's
 * `strconv.Itoa` and `strconv.Atoi` (whose sources are not part of this
 * model). Integers are unbounded here; Go's fixed-width `int` is not.
 */
module Decimal {
  import opened Optional
  import opened ByteStrings

  predicate IsDigit(c: byte) {
    '0' <= c <= '9'
  }

  predicate AllDigits(s: Bytes) {
    forall i | 0 <= i < |s| :: IsDigit(s[i])
  }

  function DigitChar(d: int): (c: byte)
    requires 0 <= d < 10
    ensures IsDigit(c)
  {
    ('0' as int + d) as char
  }

  /** The digits of a natural number, most significant first, without leading zeros. */
  function Digits(n: nat): (r: Bytes)
    ensures |r| >= 1 && AllDigits(r)
    ensures r[0] == '0' ==> n == 0 && r == "0"
  {
    if n < 10 then [DigitChar(n)] else Digits(n / 10) + [DigitChar(n % 10)]
  }

  /** The value of a run of digits, read most significant first (0 for the empty run). */
  function DigitsValue(s: Bytes): nat
    requires AllDigits(s)
  {
    if s == [] then 0
    else DigitsValue(s[..|s| - 1]) * 10 + (s[|s| - 1] as int - '0' as int)
  }

  /** `strconv.Itoa`: an optional '-' followed by the digits of the magnitude. */
  function Itoa(n: int): (r: Bytes)
    ensures |r| >= 1
    ensures r[0] == '-' <==> n < 0
    ensures forall i | 0 <= i < |r| :: IsDigit(r[i]) || (i == 0 && r[i] == '-')
  {
    if n < 0 then "-" + Digits(-n) else Digits(n)
  }

  /**
   * `strconv.Atoi`: an optional sign '+' or '-' followed by one or more
   * decimal digits; anything else (the empty text, a lone sign, a
   * non-digit) is a syntax error.
   */
  function Atoi(s: Bytes): (r: Option<int>)
    ensures r.Some? <==> (|s| >= 1 && AllDigits(s)) ||
                         (|s| >= 2 && (s[0] == '-' || s[0] == '+') && AllDigits(s[1..]))
  {
    if |s| >= 1 && (s[0] == '-' || s[0] == '+') then
      if |s| >= 2 && AllDigits(s[1..]) then
        var magnitude: int := DigitsValue(s[1..]);
        Some(if s[0] == '-' then -magnitude else magnitude)
      else None
    else if |s| >= 1 && AllDigits(s) then Some(DigitsValue(s))
    else None
  }

  lemma {:induction false} DigitsValueDigits(n: nat)
    ensures DigitsValue(Digits(n)) == n
  {
    if n >= 10 {
      var r := Digits(n);
      DigitsValueDigits(n / 10);
      assert r[..|r| - 1] == Digits(n / 10);
    }
  }

  /** Parsing the rendering of any integer gives that integer back. */
  lemma AtoiItoa(n: int)
    ensures Atoi(Itoa(n)) == Some(n)
  {
    var r := Itoa(n);
    if n < 0 {
      assert r[1..] == Digits(-n);
      DigitsValueDigits(-n);
    } else {
      DigitsValueDigits(n);
    }
  }

  /**
   * A leading '+' or leading zeros do not change the value Atoi reads, and a
   * leading '-' negates it; with AtoiItoa this fixes the value of every
   * text Atoi accepts.
   */
  lemma AtoiNormal(s: Bytes)
    requires |s| >= 1 && AllDigits(s)
    ensures Atoi("+" + s) == Atoi(s) && Atoi("0" + s) == Atoi(s) && Atoi("-" + s) == Some(-Atoi(s).value)
  {
    assert ("+" + s)[1..] == s && ("-" + s)[1..] == s;
    DigitsValueLeadingZero(s);
  }

  lemma {:induction false} DigitsValueLeadingZero(s: Bytes)
    requires AllDigits(s)
    ensures DigitsValue("0" + s) == DigitsValue(s)
  {
    if s != [] {
      var z: Bytes := "0" + s;
      assert z[..|z| - 1] == "0" + s[..|s| - 1];
      DigitsValueLeadingZero(s[..|s| - 1]);
    }
  }

  /** A run of digits that does not start with '0' has a positive value. */
  lemma {:induction false} DigitsValuePositive(s: Bytes)
    requires |s| >= 1 && AllDigits(s) && s[0] != '0'
    ensures DigitsValue(s) >= 1
  {
    if |s| > 1 {
      DigitsValuePositive(s[..|s| - 1]);
    }
  }

  /**
   * The other direction of the round trip: a digit run without leading
   * zeros (or "0" itself) is exactly what Itoa renders for its value.
   */
  lemma {:induction false} ItoaAtoi(s: Bytes)
    requires |s| >= 1 && AllDigits(s) && (s[0] == '0' ==> |s| == 1)
    ensures Atoi(s).Some? && Itoa(Atoi(s).value) == s
  {
    var v := DigitsValue(s);
    if |s| > 1 {
      var p := s[..|s| - 1];
      var d := s[|s| - 1] as int - '0' as int;
      ItoaAtoi(p);
      DigitsValuePositive(p);
      assert v == DigitsValue(p) * 10 + d && 0 <= d < 10;
      assert v / 10 == DigitsValue(p) && v % 10 == d;
      assert Digits(v) == Digits(v / 10) + [DigitChar(v % 10)];
      assert p + [s[|s| - 1]] == s;
    } else {
      assert s[..|s| - 1] == [];
      assert DigitsValue(s[..|s| - 1]) == 0;
      assert v == s[0] as int - '0' as int;
      assert Digits(v) == [s[0]];
    }
  }
}
