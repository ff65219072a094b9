/** Decimal text: the printer `std::to_string` applies to a count or port, and the reader `std::stoi`
    applies to a port. */
module Decimal {
  import opened Sequences

  datatype StoiError = InvalidArgument | OutOfRange

  const INT_MAX := 0x7fff_ffff
  const INT_MIN := -0x8000_0000

  predicate IsDigit(c: char) { '0' <= c <= '9' }

  predicate IsSpace(c: char) {
    c == ' ' || '\t' <= c <= '\r'
  }

  ghost predicate AllDigits(s: string) {
    forall i :: 0 <= i < |s| ==> IsDigit(s[i])
  }

  function DigitChar(d: nat): char
    requires d < 10
  {
    '0' + d as char
  }

  function ToDecimal(n: nat): string {
    if n < 10 then [DigitChar(n)] else ToDecimal(n / 10) + [DigitChar(n % 10)]
  }

  function Value(digits: string): nat
    requires AllDigits(digits)
  {
    if digits == "" then 0
    else Value(digits[..|digits| - 1]) * 10 + (digits[|digits| - 1] - '0') as nat
  }

  /** The length of the digit run at the front of `s`. */
  function DigitRun(s: string): (n: nat)
    ensures n <= |s| && AllDigits(s[..n])
    ensures n < |s| ==> !IsDigit(s[n])
  {
    if s != "" && IsDigit(s[0]) then 1 + DigitRun(s[1..]) else 0
  }

  function SkipSpace(s: string): string {
    if s != "" && IsSpace(s[0]) then SkipSpace(s[1..]) else s
  }

  /** `std::stoi`: leading white space, one optional sign, then the longest digit run; whatever follows
      is ignored.  No digit and a value outside `int` are the two exceptions. */
  function Stoi(s: string): Result<int, StoiError> {
    var t := SkipSpace(s);
    var negative := t != "" && t[0] == '-';
    var unsigned := if t != "" && (t[0] == '-' || t[0] == '+') then t[1..] else t;
    var n := DigitRun(unsigned);
    if n == 0 then Err(InvalidArgument)
    else
      var magnitude: int := Value(unsigned[..n]);
      var value := if negative then -magnitude else magnitude;
      if INT_MIN <= value <= INT_MAX then Ok(value) else Err(OutOfRange)
  }

  lemma {:induction false} DecimalIsDigits(n: nat)
    ensures |ToDecimal(n)| > 0 && AllDigits(ToDecimal(n))
  {
    if n >= 10 { DecimalIsDigits(n / 10); }
  }

  lemma {:induction false} ValueOfDecimal(n: nat)
    ensures AllDigits(ToDecimal(n)) && Value(ToDecimal(n)) == n
  {
    DecimalIsDigits(n);
    if n >= 10 {
      ValueOfDecimal(n / 10);
      var text := ToDecimal(n);
      assert text[..|text| - 1] == ToDecimal(n / 10);
    }
  }

  lemma DecimalInjective(m: nat, n: nat)
    requires ToDecimal(m) == ToDecimal(n)
    ensures m == n
  {
    ValueOfDecimal(m);
    ValueOfDecimal(n);
  }

  lemma {:induction false} DigitRunOfDigits(s: string)
    requires AllDigits(s)
    ensures DigitRun(s) == |s|
  {
    if s != "" { DigitRunOfDigits(s[1..]); }
  }

  /** Reading back a printed number gives the number, for every number an `int` can hold. */
  lemma StoiOfDecimal(n: nat)
    requires n <= INT_MAX
    ensures Stoi(ToDecimal(n)) == Ok(n)
  {
    var text := ToDecimal(n);
    ValueOfDecimal(n);
    DecimalIsDigits(n);
    assert IsDigit(text[0]);
    DigitRunOfDigits(text);
    assert text[..|text|] == text;
  }

  /** A text that begins with white space, at most one sign and a digit run, each perhaps followed by more. */
  ghost predicate Reads(s: string, space: string, sign: string, digits: string, rest: string) {
    && s == space + sign + digits + rest && (forall i :: 0 <= i < |space| ==> IsSpace(space[i]))
    && (sign == "" || sign == "+" || sign == "-") && digits != "" && AllDigits(digits)
    && (rest == "" || !IsDigit(rest[0]))
  }

  lemma {:induction false} SkipsSpace(space: string, t: string)
    requires forall i :: 0 <= i < |space| ==> IsSpace(space[i])
    requires t == "" || !IsSpace(t[0])
    ensures SkipSpace(space + t) == t
  {
    if space == "" {
      assert space + t == t;
    } else {
      assert (space + t)[1..] == space[1..] + t;
      SkipsSpace(space[1..], t);
    }
  }

  lemma {:induction false} RunStops(digits: string, rest: string)
    requires AllDigits(digits) && (rest == "" || !IsDigit(rest[0]))
    ensures DigitRun(digits + rest) == |digits| && (digits + rest)[..|digits|] == digits
  {
    if digits == "" {
      assert digits + rest == rest;
    } else {
      assert (digits + rest)[1..] == digits[1..] + rest;
      RunStops(digits[1..], rest);
    }
  }

  lemma StoiOf(s: string, sign: string, unsigned: string)
    requires SkipSpace(s) == sign + unsigned && (sign == "" || sign == "+" || sign == "-")
    requires unsigned != "" && IsDigit(unsigned[0])
    ensures DigitRun(unsigned) > 0
    ensures Stoi(s) == var magnitude := Value(unsigned[..DigitRun(unsigned)]);
                       var value := if sign == "-" then 0 - magnitude else magnitude;
                       if INT_MIN <= value <= INT_MAX then Ok(value) else Err(OutOfRange)
  {
    var t := sign + unsigned;
    if sign == "" {
      assert t == unsigned;
    } else {
      assert t[0] == sign[0] && t[1..] == unsigned;
    }
    hide Value, SkipSpace;
  }

  /** Such a text is read as the number it spells, if an `int` can hold it. */
  lemma StoiReads(s: string, space: string, sign: string, digits: string, rest: string)
    requires Reads(s, space, sign, digits, rest)
    ensures Stoi(s) == var value := if sign == "-" then 0 - Value(digits) else Value(digits);
                       if INT_MIN <= value <= INT_MAX then Ok(value) else Err(OutOfRange)
  {
    var unsigned := digits + rest;
    assert s == space + (sign + unsigned);
    assert IsDigit(digits[0]) && unsigned[0] == digits[0];
    assert (sign + unsigned)[0] == if sign == "" then digits[0] else sign[0];
    hide Value, DigitRun, Stoi;
    SkipsSpace(space, sign + unsigned);
    RunStops(digits, rest);
    StoiOf(s, sign, unsigned);
  }
}
