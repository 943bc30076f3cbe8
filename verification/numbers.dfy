/** JavaScript's number <-> string conversions as the site uses them on
    integers: `String(n)` / template interpolation, and `parseInt(s, 10)`.
    NaN, the result of a parse that finds no digits, is `None`. */
module JsNumbers {
  import opened Strings

  predicate IsDigit(c: char) {
    '0' <= c <= '9'
  }

  function DigitChar(d: int): (c: char)
    requires 0 <= d < 10
    ensures IsDigit(c) && c as int - '0' as int == d
  {
    ('0' as int + d) as char
  }

  function DigitValue(c: char): (d: int)
    requires IsDigit(c)
    ensures 0 <= d < 10 && DigitChar(d) == c
  {
    c as int - '0' as int
  }

  /** Decimal digits of a natural number, without leading zeros. */
  function NatToString(n: nat): (s: string)
    ensures |s| >= 1
    ensures forall i :: 0 <= i < |s| ==> IsDigit(s[i])
    decreases n
  {
    if n < 10 then [DigitChar(n)] else NatToString(n / 10) + [DigitChar(n % 10)]
  }

  /** `String(n)` for an integer value. */
  function IntToString(n: int): (s: string)
    ensures |s| >= 1
    ensures forall i :: 0 <= i < |s| ==> IsDigit(s[i]) || s[i] == '-'
    ensures n >= 0 ==> forall i :: 0 <= i < |s| ==> IsDigit(s[i])
  {
    if n < 0 then "-" + NatToString(-n) else NatToString(n)
  }

  /** The value of a string of decimal digits. */
  function DigitsValue(ds: string): (v: nat)
    requires forall i :: 0 <= i < |ds| ==> IsDigit(ds[i])
    decreases |ds|
  {
    if |ds| == 0 then 0 else DigitsValue(ds[..|ds| - 1]) * 10 + DigitValue(ds[|ds| - 1])
  }

  /** The longest prefix of `s` made of decimal digits. */
  function LeadingDigits(s: string): (ds: string)
    ensures |ds| <= |s| && s[..|ds|] == ds
    ensures forall i :: 0 <= i < |ds| ==> IsDigit(ds[i])
    ensures |ds| < |s| ==> !IsDigit(s[|ds|])
  {
    if |s| > 0 && IsDigit(s[0]) then [s[0]] + LeadingDigits(s[1..]) else ""
  }

  /** `parseInt(s, 10)` (section 19.2.5 of ECMA-262): skip leading white space,
      take an optional sign, then the longest run of decimal digits; NaN
      (`None`) when there is no digit. */
  function ParseInt(s: string): (r: Option<int>)
    ensures r.None? <==> LeadingDigits(SignStripped(TrimStart(s))) == ""
  {
    var t := TrimStart(s);
    var negative := |t| > 0 && t[0] == '-';
    var ds := LeadingDigits(SignStripped(t));
    var v: int := DigitsValue(ds);
    if ds == "" then None
    else if negative then Some(-v)
    else Some(v)
  }

  /** The text after an optional leading '+' or '-'. */
  function SignStripped(t: string): (u: string)
    ensures |t| > 0 && (t[0] == '+' || t[0] == '-') ==> u == t[1..]
    ensures !(|t| > 0 && (t[0] == '+' || t[0] == '-')) ==> u == t
  {
    if |t| > 0 && (t[0] == '+' || t[0] == '-') then t[1..] else t
  }

  /** Reading back the digits of a natural number gives that number. */
  lemma {:induction false} DigitsValueOfNat(n: nat)
    ensures DigitsValue(NatToString(n)) == n
    decreases n
  {
    if n >= 10 {
      var s := NatToString(n);
      DigitsValueOfNat(n / 10);
      assert s[..|s| - 1] == NatToString(n / 10);
    }
  }

  /** A string of digits is its own longest digit prefix. */
  lemma LeadingDigitsAll(ds: string)
    requires forall i :: 0 <= i < |ds| ==> IsDigit(ds[i])
    ensures LeadingDigits(ds) == ds
  {
    if |ds| > 0 {
      LeadingDigitsAll(ds[1..]);
    }
  }

  /** The digits of a natural number end at the first non-digit after them. */
  lemma LeadingDigitsStop(ds: string, rest: string)
    requires forall i :: 0 <= i < |ds| ==> IsDigit(ds[i])
    requires |rest| > 0 && !IsDigit(rest[0])
    ensures LeadingDigits(ds + rest) == ds
  {
    if |ds| > 0 {
      assert (ds + rest)[1..] == ds[1..] + rest;
      LeadingDigitsStop(ds[1..], rest);
    } else {
      assert (ds + rest)[0] == rest[0];
    }
  }

  /** Trimming leaves a string that starts with a digit or a sign alone. */
  lemma TrimStartNumeral(s: string)
    requires |s| > 0 && (IsDigit(s[0]) || s[0] == '-')
    ensures TrimStart(s) == s
  {
    assert !IsJsWhitespace(s[0]);
  }

  /** Parsing a printed integer followed by `rest`, where `rest` is empty or
      starts with a non-digit, yields that integer. */
  lemma {:induction false} ParseIntPrinted(n: int, rest: string)
    requires |rest| == 0 || !IsDigit(rest[0])
    ensures ParseInt(IntToString(n) + rest) == Some(n)
  {
    var s := IntToString(n) + rest;
    assert s[0] == IntToString(n)[0];
    TrimStartNumeral(s);
    var d := NatToString(if n < 0 then -n else n);
    if n < 0 {
      assert s[1..] == d + rest;
      assert SignStripped(s) == d + rest;
    } else {
      assert s == d + rest;
      assert SignStripped(s) == d + rest;
    }
    if |rest| == 0 {
      assert d + rest == d;
      LeadingDigitsAll(d);
    } else {
      LeadingDigitsStop(d, rest);
    }
    DigitsValueOfNat(if n < 0 then -n else n);
  }

  /** `parseInt(String(n), 10) == n` for every integer n. */
  lemma ParseIntToString(n: int)
    ensures ParseInt(IntToString(n)) == Some(n)
  {
    ParseIntPrinted(n, "");
    assert IntToString(n) + "" == IntToString(n);
  }

  /** Distinct integers print differently. */
  lemma IntToStringInjective(a: int, b: int)
    requires IntToString(a) == IntToString(b)
    ensures a == b
  {
    ParseIntToString(a);
    ParseIntToString(b);
  }

  /** JavaScript's `a % b` for a positive divisor: the remainder of the
      division truncated toward zero, so it takes the sign of `a`. */
  function JsRem(a: int, b: int): (r: int)
    requires b > 0
    ensures a >= 0 ==> 0 <= r < b
    ensures a < 0 ==> -b < r <= 0
    ensures a - r == b * (if a >= 0 then a / b else -((-a) / b))
  {
    if a >= 0 then a % b else -((-a) % b)
  }
}
