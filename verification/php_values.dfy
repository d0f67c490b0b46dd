/*
 * Option type used throughout the model.
 */
module Wrappers {

  datatype Option<+T> = None | Some(value: T) {

    /** The carried value, or `default` when there is none. */
    function GetOr(default: T): T {
      match this
      case Some(v) => v
      case None => default
    }
  }
}

/*
 * The handful of PHP value semantics the plugin leans on: post ids that are
 * sometimes integers and sometimes strings, truthiness, `==` between ids,
 * integer/string conversion and the character filters the plugin applies.
 */
module PhpValues {
  import opened Wrappers

  /** A post id as the plugin handles it: WordPress hands out integers,
      submitted forms hand over strings. */
  datatype PostId = IntId(n: int) | StrId(s: string)

  predicate IsDigit(c: char) {
    '0' <= c <= '9'
  }

  predicate AllDigits(s: string) {
    forall i :: 0 <= i < |s| ==> IsDigit(s[i])
  }

  /** Decimal value of a string of digits (leading zeros allowed). */
  function DigitsValue(ds: string): nat
    requires AllDigits(ds)
  {
    if |ds| == 0 then 0
    else DigitsValue(ds[..|ds| - 1]) * 10 + ((ds[|ds| - 1] as int) - ('0' as int))
  }

  function DigitChar(d: nat): (c: char)
    requires d < 10
    ensures IsDigit(c) && (c as int) - ('0' as int) == d
  {
    (('0' as int) + d) as char
  }

  /** Decimal rendering of a natural number, without leading zeros. */
  function NatToString(n: nat): (s: string)
    ensures |s| > 0 && AllDigits(s)
    ensures n > 0 ==> s[0] != '0'
  {
    if n < 10 then [DigitChar(n)] else NatToString(n / 10) + [DigitChar(n % 10)]
  }

  /** PHP's `(string)` of an integer. */
  function IntToString(n: int): (s: string)
    ensures |s| > 0
  {
    if n < 0 then "-" + NatToString(-n) else NatToString(n)
  }

  /** The value of an integer numeric string: an optional sign followed by
      one or more digits. Any other string is not numeric here. */
  function ParseInt(s: string): Option<int> {
    if |s| > 0 && (s[0] == '-' || s[0] == '+') then
      if |s| > 1 && AllDigits(s[1..]) then
        var v: int := DigitsValue(s[1..]);
        Some(if s[0] == '-' then -v else v)
      else None
    else if |s| > 0 && AllDigits(s) then Some(DigitsValue(s))
    else None
  }

  lemma {:induction false} NatToStringValue(n: nat)
    ensures DigitsValue(NatToString(n)) == n
  {
    if n >= 10 {
      NatToStringValue(n / 10);
      var s := NatToString(n);
      assert s[..|s| - 1] == NatToString(n / 10);
    }
  }

  lemma ParseNatString(n: nat)
    ensures ParseInt(NatToString(n)) == Some(n)
  {
    var s := NatToString(n);
    NatToStringValue(n);
    assert IsDigit(s[0]);
    assert s[0] != '-' && s[0] != '+';
  }

  lemma ParseNegativeString(n: int)
    requires n < 0
    ensures ParseInt(IntToString(n)) == Some(n)
  {
    var digits := NatToString(-n);
    NatToStringValue(-n);
    var s := IntToString(n);
    assert s == "-" + digits;
    assert s[0] == '-' && s[1..] == digits;
  }

  /** Rendering an integer and reading it back gives the integer. */
  lemma IntToStringRoundTrip(n: int)
    ensures ParseInt(IntToString(n)) == Some(n)
  {
    if n < 0 {
      ParseNegativeString(n);
    } else {
      ParseNatString(n);
    }
  }

  /** PHP's `empty()` on a string: the empty string and "0" are empty. */
  predicate EmptyString(s: string) {
    s == "" || s == "0"
  }

  /** PHP's `(string)` of an id. */
  function ToPhpString(id: PostId): string {
    match id
    case IntId(n) => IntToString(n)
    case StrId(s) => s
  }

  /** PHP truthiness of an id (`if ( $post_id )`, `! empty( $post_id )`). */
  predicate Truthy(id: PostId) {
    match id
    case IntId(n) => n != 0
    case StrId(s) => !EmptyString(s)
  }

  /** PHP truthiness of a form field that may be absent. */
  predicate TruthyField(v: Option<string>) {
    v.Some? && !EmptyString(v.value)
  }

  /** PHP 8 loose equality `==` between two ids. A numeric string compares
      by value with an integer or another numeric string; otherwise strings
      compare character by character. Ids with the same string form are
      always loosely equal; two integers only when they are the same; and a
      non-numeric string only to itself. */
  function LooseEq(a: PostId, b: PostId): (r: bool)
    ensures ToPhpString(a) == ToPhpString(b) ==> r
    ensures r && a.IntId? && b.IntId? ==> a == b
    ensures r && a.StrId? && ParseInt(a.s).None? ==> b == a
  {
    match (a, b)
    case (IntId(x), IntId(y)) =>
      IntToStringRoundTrip(x);
      IntToStringRoundTrip(y);
      x == y
    case (IntId(x), StrId(t)) =>
      IntToStringRoundTrip(x);
      ParseInt(t) == Some(x)
    case (StrId(s), IntId(y)) =>
      IntToStringRoundTrip(y);
      ParseInt(s) == Some(y)
    case (StrId(s), StrId(t)) =>
      if ParseInt(s).Some? && ParseInt(t).Some? then ParseInt(s) == ParseInt(t) else s == t
  }

  lemma LooseEqIsSymmetric(a: PostId, b: PostId)
    ensures LooseEq(a, b) <==> LooseEq(b, a)
  {
  }

  /** An integer id is loosely equal to its own decimal rendering, although
      the two are not strictly equal. */
  lemma LooseEqIntAndItsString(n: int)
    ensures LooseEq(IntId(n), StrId(IntToString(n)))
    ensures IntId(n) != StrId(IntToString(n))
  {
    IntToStringRoundTrip(n);
  }

  /** Leading zeros do not matter to loose equality between numeric strings. */
  lemma LooseEqIgnoresLeadingZeros()
    ensures LooseEq(StrId("007"), StrId("7"))
    ensures LooseEq(IntId(7), StrId("+7"))
  {
    assert AllDigits("007");
    assert DigitsValue("00") == 0;
    assert DigitsValue("007") == 7;
    assert "+7"[1..] == "7";
  }

  predicate IsSpace(c: char) {
    c == ' ' || c == '\t' || c == '\n' || c == '\r' || c as int == 11 || c as int == 12
  }

  function TrimLeadingSpace(s: string): (t: string)
    ensures |t| <= |s| && t == s[|s| - |t|..]
    ensures |t| > 0 ==> !IsSpace(t[0])
  {
    if |s| > 0 && IsSpace(s[0]) then TrimLeadingSpace(s[1..]) else s
  }

  /** The longest prefix of `s` made of digits. */
  function DigitPrefix(s: string): (d: string)
    ensures AllDigits(d) && |d| <= |s| && d == s[..|d|]
    ensures |d| < |s| ==> !IsDigit(s[|d|])
  {
    if |s| > 0 && IsDigit(s[0]) then [s[0]] + DigitPrefix(s[1..]) else []
  }

  /** The exponent a numeric string may end with: `e` or `E`, an optional
      sign and at least one digit. Without one the exponent is 0. */
  function ExponentOf(s: string): int {
    if |s| > 0 && (s[0] == 'e' || s[0] == 'E') then
      var u := s[1..];
      var signed := |u| > 0 && (u[0] == '-' || u[0] == '+');
      var ds := DigitPrefix(if signed then u[1..] else u);
      var v: int := DigitsValue(ds);
      if |ds| == 0 then 0 else if signed && u[0] == '-' then -v else v
    else 0
  }

  /** The fraction digits after a leading `.`, and what follows them. */
  function FractionOf(rest: string): (r: (string, string))
    ensures AllDigits(r.0)
  {
    if |rest| > 0 && rest[0] == '.' then
      var frac := DigitPrefix(rest[1..]);
      (frac, rest[1 + |frac|..])
    else ("", rest)
  }

  lemma DigitsConcat(a: string, b: string)
    requires AllDigits(a) && AllDigits(b)
    ensures AllDigits(a + b)
  {
    forall i | 0 <= i < |a + b|
      ensures IsDigit((a + b)[i])
    {
      if i >= |a| {
        assert (a + b)[i] == b[i - |a|];
      }
    }
  }

  /** `mantissa` times ten to the `scale`, truncated toward zero. */
  function Scaled(mantissa: nat, scale: int): nat
    decreases if scale >= 0 then scale else -scale
  {
    if scale > 0 then Scaled(mantissa * 10, scale - 1)
    else if scale < 0 then Scaled(mantissa / 10, scale + 1)
    else mantissa
  }

  /** The magnitude of the longest numeric prefix of an unsigned string:
      integer digits, an optional `.` with fraction digits, then an optional
      exponent, read exactly and truncated toward zero. A prefix without a
      single digit before the exponent is no number and reads as 0. */
  function UnsignedValue(u: string): nat {
    var whole := DigitPrefix(u);
    var split := FractionOf(u[|whole|..]);
    var frac := split.0;
    if |whole| + |frac| == 0 then 0
    else
      DigitsConcat(whole, frac);
      Scaled(DigitsValue(whole + frac), ExponentOf(split.1) - |frac|)
  }

  lemma {:induction false} DigitPrefixOfDigits(s: string)
    requires AllDigits(s)
    ensures DigitPrefix(s) == s
  {
    if |s| > 0 {
      DigitPrefixOfDigits(s[1..]);
    }
  }

  /** A plain string of digits has no fraction and no exponent. */
  lemma UnsignedValueOfDigits(ds: string)
    ensures AllDigits(ds) ==> UnsignedValue(ds) == DigitsValue(ds)
  {
    if AllDigits(ds) {
      DigitPrefixOfDigits(ds);
      assert ds[|ds|..] == "";
      assert FractionOf("") == ("", "");
      assert ds + "" == ds;
    }
  }

  /** The value of a string that starts where the number does: an optional
      sign, then the unsigned reading. */
  function SignedValue(t: string): int {
    var signed := |t| > 0 && (t[0] == '-' || t[0] == '+');
    var v: int := UnsignedValue(if signed then t[1..] else t);
    if signed && t[0] == '-' then -v else v
  }

  lemma SignedValueOfInteger(t: string)
    ensures ParseInt(t).Some? ==> SignedValue(t) == ParseInt(t).value
  {
    if ParseInt(t).Some? {
      if t[0] == '-' || t[0] == '+' {
        UnsignedValueOfDigits(t[1..]);
      } else {
        UnsignedValueOfDigits(t);
      }
    }
  }

  /** An integer numeric string has no leading white space to trim. */
  lemma TrimInteger(s: string)
    ensures ParseInt(s).Some? ==> TrimLeadingSpace(s) == s
  {
    if ParseInt(s).Some? {
      assert !IsSpace(s[0]);
    }
  }

  /** PHP's `intval()` of a string, as PHP 7.1 and later read it: leading
      white space and an optional sign, then the longest numeric prefix,
      fraction and exponent included, truncated toward zero. On an integer
      numeric string it is that integer. */
  function IntVal(s: string): (r: int)
    ensures ParseInt(s).Some? ==> r == ParseInt(s).value
  {
    TrimInteger(s);
    SignedValueOfInteger(s);
    SignedValue(TrimLeadingSpace(s))
  }

  /** WordPress's `absint()`: the absolute value of `intval()`. */
  function AbsInt(s: string): (r: nat)
    ensures r == IntVal(s) || r == -IntVal(s)
    ensures ParseInt(s).Some? ==> r == if ParseInt(s).value < 0 then -ParseInt(s).value else ParseInt(s).value
  {
    var v := IntVal(s);
    if v < 0 then -v else v
  }

  /** `intval` reads back every integer PHP renders, so `absint` of a
      rendered integer is its absolute value. */
  lemma IntValRoundTrip(n: int)
    ensures IntVal(IntToString(n)) == n
    ensures AbsInt(IntToString(n)) == if n < 0 then -n else n
  {
    IntToStringRoundTrip(n);
  }

  lemma UnsignedValueOfExponent()
    ensures UnsignedValue("1e3") == 1000
  {
    assert DigitPrefix("3") == "3";
    assert DigitPrefix("e3") == "";
    assert DigitPrefix("1e3") == "1";
    assert "1e3"[1..] == "e3" && "e3"[1..] == "3";
    assert FractionOf("e3") == ("", "e3");
    assert ExponentOf("e3") == 3;
    assert "1" + "" == "1";
    assert Scaled(1, 3) == 1000;
  }

  lemma TrimExponent()
    ensures TrimLeadingSpace("1e3") == "1e3"
    ensures ParseInt("1e3") == None
  {
    assert !IsSpace("1e3"[0]) && "1e3"[0] != '-' && "1e3"[0] != '+';
    assert !AllDigits("1e3") by { assert !IsDigit("1e3"[1]); }
  }

  /** An exponent scales the number: "1e3" reads as 1000. */
  lemma IntValReadsExponent()
    ensures IntVal("1e3") == 1000 && AbsInt("1e3") == 1000
  {
    UnsignedValueOfExponent();
    TrimExponent();
    assert "1e3"[0] != '-' && "1e3"[0] != '+';
    assert SignedValue("1e3") == 1000;
  }

  lemma UnsignedValueOfScaledFraction()
    ensures UnsignedValue("2.5e1") == 25
  {
    var u := "2.5e1";
    assert DigitPrefix("5e1") == "5";
    assert DigitPrefix(u) == "2";
    assert u[1..] == ".5e1" && ".5e1"[1..] == "5e1" && ".5e1"[2..] == "e1";
    assert FractionOf(".5e1") == ("5", "e1");
    assert DigitPrefix("1") == "1";
    assert ExponentOf("e1") == 1;
    assert "25"[..1] == "2";
    assert "2" + "5" == "25" && DigitsValue("25") == 25;
  }

  lemma SignedValueOfScaledFraction()
    ensures SignedValue("-2.5e1") == -25
  {
    UnsignedValueOfScaledFraction();
    assert "-2.5e1"[1..] == "2.5e1";
  }

  lemma TrimNegativeScaledFraction()
    ensures TrimLeadingSpace("-2.5e1") == "-2.5e1"
    ensures ParseInt("-2.5e1") == None
  {
    assert !IsSpace("-2.5e1"[0]);
    assert "-2.5e1"[1..] == "2.5e1";
    assert !AllDigits("2.5e1") by { assert !IsDigit("2.5e1"[1]); }
  }

  /** A fraction is scaled with the exponent, and the sign applies to the
      whole number: "-2.5e1" reads as -25. */
  lemma IntValScalesFraction()
    ensures IntVal("-2.5e1") == -25 && AbsInt("-2.5e1") == 25
  {
    SignedValueOfScaledFraction();
    TrimNegativeScaledFraction();
  }

  lemma UnsignedValueOfFraction()
    ensures UnsignedValue("12.9") == 12
  {
    assert DigitPrefix("9") == "9";
    assert DigitPrefix("12.9") == "12";
    assert "12.9"[2..] == ".9" && ".9"[1..] == "9" && ".9"[2..] == "";
    assert FractionOf(".9") == ("9", "");
    assert ExponentOf("") == 0;
    assert "129"[..2] == "12" && "12"[..1] == "1";
    assert "12" + "9" == "129" && DigitsValue("129") == 129;
    assert Scaled(129, -1) == 12;
  }

  lemma TrimFraction()
    ensures TrimLeadingSpace("12.9") == "12.9"
    ensures ParseInt("12.9") == None
  {
    assert !IsSpace("12.9"[0]) && "12.9"[0] != '-' && "12.9"[0] != '+';
    assert !AllDigits("12.9") by { assert !IsDigit("12.9"[2]); }
  }

  lemma SignedValueOfFraction()
    ensures SignedValue("12.9") == 12
  {
    UnsignedValueOfFraction();
    assert "12.9"[0] != '-' && "12.9"[0] != '+';
  }

  /** A fraction alone is cut off: "12.9" reads as 12. */
  lemma IntValTruncatesFraction()
    ensures IntVal("12.9") == 12
  {
    SignedValueOfFraction();
    TrimFraction();
  }

  lemma UnsignedValueOfBareExponent()
    ensures UnsignedValue("7e") == 7
  {
    assert DigitPrefix("e") == "";
    assert DigitPrefix("7e") == "7";
    assert "7e"[1..] == "e";
    assert FractionOf("e") == ("", "e");
    assert "e"[1..] == "";
    assert ExponentOf("e") == 0;
    assert "7" + "" == "7";
    assert DigitsValue("7") == 7;
  }

  lemma TrimBareExponent()
    ensures TrimLeadingSpace("7e") == "7e"
    ensures ParseInt("7e") == None
  {
    assert !IsSpace("7e"[0]) && "7e"[0] != '-' && "7e"[0] != '+';
    assert !AllDigits("7e") by { assert !IsDigit("7e"[1]); }
  }

  lemma SignedValueOfBareExponent()
    ensures SignedValue("7e") == 7
  {
    UnsignedValueOfBareExponent();
    assert "7e"[0] != '-' && "7e"[0] != '+';
  }

  /** An `e` without digits is no exponent: "7e" reads as 7. */
  lemma IntValIgnoresBareExponent()
    ensures IntVal("7e") == 7
  {
    SignedValueOfBareExponent();
    TrimBareExponent();
  }

  predicate NumberIntChar(c: char) {
    IsDigit(c) || c == '+' || c == '-'
  }

  /** `FILTER_SANITIZE_NUMBER_INT`: drops every character except digits,
      plus and minus signs, keeping the order of the rest. */
  function SanitizeNumberInt(s: string): (r: string)
    ensures |r| <= |s|
    ensures forall i :: 0 <= i < |r| ==> NumberIntChar(r[i])
    ensures (forall i :: 0 <= i < |s| ==> NumberIntChar(s[i])) ==> r == s
  {
    if |s| == 0 then ""
    else if NumberIntChar(s[0]) then [s[0]] + SanitizeNumberInt(s[1..])
    else SanitizeNumberInt(s[1..])
  }

  /** `substr( $s, 0, n )`: the first `n` characters of `s`. */
  function Truncate(s: string, n: nat): (r: string)
    ensures |r| <= n && r <= s
    ensures |s| <= n ==> r == s
    ensures |s| > n ==> |r| == n
  {
    if |s| <= n then s else s[..n]
  }
}
