/** The two conversions the server borrows from Go's strconv package:
    Atoi, which turns the `count` query parameter into an integer, and
    Itoa, which writes the numbered FizzBuzz lines and the counter value.
    Integers are mathematical: the clamping of out-of-range input to the
    largest machine integer is not modelled. */
module Strconv {

  datatype Option<T> = None | Some(value: T)

  /** An ASCII decimal digit, the only characters that count as digits here. */
  predicate IsDigit(c: char) {
    '0' <= c <= '9'
  }

  predicate AllDigits(s: string) {
    forall k :: 0 <= k < |s| ==> IsDigit(s[k])
  }

  function DigitValue(c: char): (d: nat)
    requires IsDigit(c)
    ensures d < 10
  {
    (c as int) - ('0' as int)
  }

  function DigitChar(d: nat): (c: char)
    requires d < 10
    ensures IsDigit(c) && DigitValue(c) == d
  {
    (('0' as int) + d) as char
  }

  /** The value of a run of decimal digits, most significant first. */
  function DigitsValue(s: string): nat
    requires AllDigits(s)
  {
    if s == [] then 0 else DigitsValue(s[..|s| - 1]) * 10 + DigitValue(s[|s| - 1])
  }

  /** The decimal form of a natural number: at least one digit, only
      digits, and no leading zero unless the number is zero. */
  function Itoa(n: nat): (r: string)
    ensures |r| >= 1 && AllDigits(r)
    ensures r[0] == '0' ==> n == 0 && r == "0"
    decreases n
  {
    if n < 10 then [DigitChar(n)] else Itoa(n / 10) + [DigitChar(n % 10)]
  }

  /** strconv.Itoa / fmt.Sprint on an int: a minus sign before the
      magnitude of a negative number. */
  function FormatInt(v: int): (r: string)
    ensures |r| >= 1
    ensures v >= 0 <==> AllDigits(r)
    ensures v < 0 <==> r[0] == '-'
  {
    if v < 0 then
      var r := "-" + Itoa(-v);
      assert !IsDigit(r[0]);
      r
    else Itoa(v)
  }

  /** The syntax strconv.Atoi accepts: an optional '+' or '-' followed by
      one or more decimal digits; anything else is a syntax error (None). */
  function ParseInt(s: string): (r: Option<int>)
    ensures r.Some? ==> |s| >= 1 && IsDigit(s[|s| - 1])
  {
    if |s| > 0 && (s[0] == '+' || s[0] == '-') then
      var digits := s[1..];
      if digits != [] && AllDigits(digits) then
        Some(if s[0] == '-' then -(DigitsValue(digits) as int) else DigitsValue(digits))
      else None
    else if s != [] && AllDigits(s) then Some(DigitsValue(s))
    else None
  }

  /** strconv.Atoi with its error discarded: the parsed value, or 0 when
      the syntax is wrong. */
  function Atoi(s: string): (r: int)
    ensures ParseInt(s) == None ==> r == 0
    ensures ParseInt(s).Some? ==> r == ParseInt(s).value
    ensures r != 0 ==> ParseInt(s) == Some(r)
  {
    match ParseInt(s)
    case Some(v) => v
    case None => 0
  }

  /** Reading back the digits Itoa writes gives the number again. */
  lemma {:induction false} DigitsValueItoa(n: nat)
    ensures DigitsValue(Itoa(n)) == n
    decreases n
  {
    if n >= 10 {
      var r := Itoa(n);
      assert r[..|r| - 1] == Itoa(n / 10);
      DigitsValueItoa(n / 10);
    }
  }

  /** Atoi inverts FormatInt on every integer, negative ones included. */
  lemma ParseFormatInt(v: int)
    ensures ParseInt(FormatInt(v)) == Some(v)
    ensures Atoi(FormatInt(v)) == v
  {
    var r := FormatInt(v);
    if v < 0 {
      var digits := Itoa(-v);
      DigitsValueItoa(-v);
      assert r == "-" + digits && r[0] == '-' && r[1..] == digits;
      assert ParseInt(r) == Some(-(DigitsValue(digits) as int));
    } else {
      DigitsValueItoa(v);
      assert r[0] != '+' && r[0] != '-';
    }
  }

  /** A string Atoi reads as a positive number holds a decimal digit:
      the last character of the accepted syntax is always one. */
  lemma AtoiPositiveHasDigit(s: string)
    ensures Atoi(s) >= 1 ==> exists k :: 0 <= k < |s| && IsDigit(s[k])
  {
    if Atoi(s) >= 1 {
      assert IsDigit(s[|s| - 1]);
    }
  }

  /** Inputs whose syntax Atoi refuses, and one it accepts with a sign. */
  lemma AtoiExamples()
    ensures Atoi("") == 0 && Atoi("abc") == 0 && Atoi("12abc") == 0
    ensures Atoi("+") == 0 && Atoi("-") == 0 && Atoi(" 7") == 0
    ensures Atoi("0") == 0 && Atoi("-3") == -3 && Atoi("+15") == 15
  {
    assert !IsDigit("12abc"[2]);
    assert !IsDigit(" 7"[0]);
    assert "-3"[1..] == "3";
    assert "+15"[1..] == "15";
    assert "15"[..1] == "1";
  }
}
