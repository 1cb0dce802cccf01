/** Decimal text of integers: Python's `str(n)` for an `int`, and the
    reading of a text cell as an integer by `pd.to_numeric`. */
module Decimal {
  import opened Wrappers

  predicate IsDigit(c: char) {
    '0' <= c <= '9'
  }

  predicate AllDigits(s: string) {
    forall i :: 0 <= i < |s| ==> IsDigit(s[i])
  }

  function DigitChar(d: nat): (c: char)
    requires d < 10
    ensures IsDigit(c) && c as int - '0' as int == d
  {
    ('0' as int + d) as char
  }

  /** The decimal digits of `n`, most significant first, without leading
      zeros. */
  function Digits(n: nat): (r: string)
    ensures |r| >= 1 && AllDigits(r)
    ensures r[0] == '0' <==> n == 0
    decreases n
  {
    if n < 10 then [DigitChar(n)] else Digits(n / 10) + [DigitChar(n % 10)]
  }

  /** The number a non-empty string of digits denotes (leading zeros allowed). */
  function Value(s: string): nat
    requires AllDigits(s)
    decreases |s|
  {
    if s == [] then 0 else Value(s[..|s| - 1]) * 10 + (s[|s| - 1] as int - '0' as int)
  }

  /** Python's `str(n)` for an integer. */
  function Format(n: int): (r: string)
    ensures |r| >= 1
    ensures r[0] == '-' <==> n < 0
  {
    if n < 0 then "-" + Digits(-n) else Digits(n)
  }

  /** An integer written as decimal text: an optional sign followed by at
      least one digit. Any other text is not a number and reads as missing. */
  function Parse(s: string): (r: Option<int>)
    ensures r.Some? <==> (|s| >= 1 && AllDigits(s)) ||
                         (|s| >= 2 && (s[0] == '-' || s[0] == '+') && AllDigits(s[1..]))
  {
    if |s| >= 2 && s[0] == '-' && AllDigits(s[1..]) then Some(-(Value(s[1..]) as int))
    else if |s| >= 2 && s[0] == '+' && AllDigits(s[1..]) then Some(Value(s[1..]))
    else if |s| >= 1 && AllDigits(s) then Some(Value(s))
    else None
  }

  lemma {:induction false} ValueDigits(n: nat)
    ensures Value(Digits(n)) == n
    decreases n
  {
    if n >= 10 {
      ValueDigits(n / 10);
      var d := Digits(n);
      assert d[..|d| - 1] == Digits(n / 10);
    }
  }

  /** Reading back the text `str(n)` gives `n`. */
  lemma ParseFormat(n: int)
    ensures Parse(Format(n)) == Some(n)
  {
    var s := Format(n);
    if n < 0 {
      var d := Digits(-n);
      assert s == "-" + d;
      assert s[1..] == d;
      ValueDigits(-n);
      assert |s| >= 2 && s[0] == '-' && AllDigits(s[1..]);
    } else {
      var d := Digits(n);
      assert s == d;
      ValueDigits(n);
      assert IsDigit(s[0]);
      assert s[0] != '-' && s[0] != '+';
    }
  }

  /** A leading zero does not change the number a digit string denotes. */
  lemma {:induction false} ValueLeadingZero(s: string)
    requires AllDigits(s)
    ensures AllDigits("0" + s) && Value("0" + s) == Value(s)
    decreases |s|
  {
    if s != [] {
      var t := "0" + s;
      assert t[..|t| - 1] == "0" + s[..|s| - 1];
      ValueLeadingZero(s[..|s| - 1]);
    }
  }

  lemma {:induction false} ValuePositive(s: string)
    requires |s| >= 1 && AllDigits(s) && s[0] != '0'
    ensures Value(s) > 0
    decreases |s|
  {
    if |s| > 1 {
      ValuePositive(s[..|s| - 1]);
    }
  }

  /** A digit string without a leading zero is the text of the number it
      denotes: `str(int(s)) == s`. */
  lemma {:induction false} DigitsValue(s: string)
    requires |s| >= 1 && AllDigits(s) && (s[0] != '0' || |s| == 1)
    ensures Digits(Value(s)) == s
    decreases |s|
  {
    if |s| > 1 {
      var p := s[..|s| - 1];
      var d := s[|s| - 1] as int - '0' as int;
      DigitsValue(p);
      ValuePositive(p);
      var n := Value(s);
      assert n == Value(p) * 10 + d;
      assert n / 10 == Value(p) && n % 10 == d;
      assert s == p + [s[|s| - 1]];
    }
  }
}
