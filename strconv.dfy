/**
 * Go's `strconv.Atoi` and the decimal formatting of `%d`, on a platform whose
 * `int` has 64 bits.
 */
module Strconv {
  import opened Wrappers

  const MinInt64: int := -0x8000_0000_0000_0000
  const MaxInt64: int := 0x7FFF_FFFF_FFFF_FFFF

  predicate IsDigit(c: char) {
    '0' <= c <= '9'
  }

  predicate AllDigits(s: string) {
    forall i :: 0 <= i < |s| ==> IsDigit(s[i])
  }

  /** The value of a string of decimal digits, most significant digit first. */
  function DigitsValue(s: string): nat
    requires AllDigits(s)
  {
    if s == [] then 0 else DigitsValue(s[..|s| - 1]) * 10 + (s[|s| - 1] as int - '0' as int)
  }

  /**
   * strconv.Atoi: an optional `+` or `-`, then one or more decimal digits, whose
   * value must fit in 64 bits; anything else is a syntax or range error.
   */
  function Atoi(s: string): (r: Option<int>)
    ensures r.Some? ==> MinInt64 <= r.value <= MaxInt64
    ensures r.Some? ==> exists i :: 0 <= i < |s| && IsDigit(s[i])
  {
    var signed := |s| > 0 && (s[0] == '-' || s[0] == '+');
    var digits := if signed then s[1..] else s;
    if digits == [] || !AllDigits(digits) then None
    else
      var v: int := if signed && s[0] == '-' then -(DigitsValue(digits) as int) else DigitsValue(digits);
      assert IsDigit(s[|s| - 1]);
      if MinInt64 <= v <= MaxInt64 then Some(v) else None
  }

  /** Decimal digits of a natural number, without leading zeros. */
  function Digits(n: nat): (s: string)
    ensures |s| > 0 && AllDigits(s) && DigitsValue(s) == n
    ensures n > 0 ==> s[0] != '0'
  {
    if n < 10 then [('0' as int + n) as char]
    else
      var front := Digits(n / 10);
      var s := front + [('0' as int + n % 10) as char];
      assert s[..|s| - 1] == front;
      s
  }

  /** strconv.Itoa, which is also what `%d` prints. */
  function FormatInt(n: int): (s: string)
    ensures |s| > 0
  {
    if n < 0 then "-" + Digits(-n) else Digits(n)
  }

  /** Atoi reads back what FormatInt writes, for every 64-bit value. */
  lemma AtoiFormatInt(n: int)
    requires MinInt64 <= n <= MaxInt64
    ensures Atoi(FormatInt(n)) == Some(n)
  {
    var s := FormatInt(n);
    if n < 0 {
      assert s[1..] == Digits(-n);
    } else {
      assert IsDigit(s[0]);
    }
  }

  /**
   * What Atoi accepts, stated without its steps: the text is one or more
   * digits `d`, bare or after one `+` or `-`, and the value is that of `d`,
   * negated after `-`, provided it fits in 64 bits.
   */
  lemma AtoiMeaning(s: string, v: int)
    ensures Atoi(s) == Some(v) <==>
      exists d :: |d| > 0 && AllDigits(d) && (s == d || s == "+" + d || s == "-" + d)
                  && v == (if s[0] == '-' then -(DigitsValue(d) as int) else DigitsValue(d))
                  && MinInt64 <= v <= MaxInt64
  {
    var signed := |s| > 0 && (s[0] == '-' || s[0] == '+');
    var digits := if signed then s[1..] else s;
    if Atoi(s) == Some(v) {
      if signed {
        assert s == [s[0]] + digits;
      }
    }
    forall d | |d| > 0 && AllDigits(d) && (s == d || s == "+" + d || s == "-" + d)
      ensures digits == d
    {
      if s == d {
        assert IsDigit(s[0]);
      } else {
        assert s[1..] == d;
      }
    }
  }

  /** Trailing garbage, a space or a doubled sign is rejected; a sign and leading zeros are not. */
  lemma AtoiExamples()
    ensures Atoi("12abc") == None && Atoi(" 1") == None && Atoi("--1") == None && Atoi("+") == None
    ensures Atoi("+007") == Some(7) && Atoi("-0") == Some(0) && Atoi("-12") == Some(-12)
  {
    assert !IsDigit("12abc"[2]);
    assert !IsDigit(" 1"[0]);
    assert !IsDigit("--1"[1..][0]);
    assert "+007"[1..] == "007" && "007"[..2] == "00" && "00"[..1] == "0";
    assert "-12"[1..] == "12" && "12"[..1] == "1";
  }

  /** A string that holds no digit at all (the empty string, `abc`, a lone sign) never parses. */
  lemma AtoiNeedsDigits(s: string)
    requires forall i :: 0 <= i < |s| ==> !IsDigit(s[i])
    ensures Atoi(s) == None
  {
  }
}
