/**
 The global `parseInt(string)` of ECMAScript (ECMA-262, section 19.2.5), called
 without a radix: skip leading white space and line terminators, read an
 optional sign, switch to base 16 on a leading `0x` or `0X`, take the longest
 prefix of digits of that base, and answer NaN when that prefix is empty.
 The result is the exact integer: the rounding of values above 2^53 to the
 nearest Number, and Infinity for values above about 1.8e308, are not modelled.
 */
module JsParseInt {

  /** A Number value `parseInt` can produce. Its -0 is merged with 0. */
  datatype JsNumber = NaN | Num(value: int)

  /** The code points the StrWhiteSpaceChar production admits: WhiteSpace and LineTerminator. */
  predicate IsStrWhiteSpace(c: char) {
    || c == '\t' || c == '\U{000B}' || c == '\U{000C}' || c == ' ' || c == '\U{00A0}' || c == '\U{FEFF}'
    || c == '\U{1680}' || ('\U{2000}' <= c <= '\U{200A}') || c == '\U{202F}' || c == '\U{205F}' || c == '\U{3000}'
    || c == '\n' || c == '\r' || c == '\U{2028}' || c == '\U{2029}'
  }

  /** TrimString(inputString, start): the input after its leading white space. */
  function TrimStart(s: string): (r: string)
    ensures |r| <= |s|
    ensures r != [] ==> !IsStrWhiteSpace(r[0])
  {
    if s != [] && IsStrWhiteSpace(s[0]) then TrimStart(s[1..]) else s
  }

  /** `TrimStart` removes the leading white space and keeps everything after it. */
  lemma {:induction false} TrimStartDropsLeadingWhiteSpace(s: string)
    ensures exists k :: 0 <= k <= |s| && TrimStart(s) == s[k..] && forall i :: 0 <= i < k ==> IsStrWhiteSpace(s[i])
  {
    if s != [] && IsStrWhiteSpace(s[0]) {
      var t := s[1..];
      TrimStartDropsLeadingWhiteSpace(t);
      var k :| 0 <= k <= |t| && TrimStart(t) == t[k..] && forall i :: 0 <= i < k ==> IsStrWhiteSpace(t[i]);
      assert TrimStart(s) == s[k + 1..];
      forall i | 0 <= i < k + 1 ensures IsStrWhiteSpace(s[i]) {
        if i > 0 {
          assert s[i] == t[i - 1];
        }
      }
    } else {
      assert TrimStart(s) == s[0..];
    }
  }

  predicate IsDecimalDigit(c: char) {
    '0' <= c <= '9'
  }

  predicate IsRadixDigit(c: char, radix: nat) {
    if radix == 16 then IsDecimalDigit(c) || ('a' <= c <= 'f') || ('A' <= c <= 'F')
    else IsDecimalDigit(c)
  }

  function DigitValue(c: char, radix: nat): (d: nat)
    requires IsRadixDigit(c, radix)
    ensures d < (if radix == 16 then 16 else 10)
  {
    if IsDecimalDigit(c) then c as int - '0' as int
    else if 'a' <= c <= 'f' then c as int - 'a' as int + 10
    else c as int - 'A' as int + 10
  }

  /** The numeral Z: the prefix of `s` before its first code unit that is not a radix digit. */
  function LongestDigitPrefix(s: string, radix: nat): (z: string)
    ensures z <= s
    ensures forall i :: 0 <= i < |z| ==> IsRadixDigit(z[i], radix)
    ensures |z| < |s| ==> !IsRadixDigit(s[|z|], radix)
  {
    if s == [] || !IsRadixDigit(s[0], radix) then [] else [s[0]] + LongestDigitPrefix(s[1..], radix)
  }

  function Pow(b: nat, e: nat): (p: nat)
    requires b > 0
    ensures p > 0
  {
    if e == 0 then 1 else b * Pow(b, e - 1)
  }

  /** The mathematical integer value a numeral denotes in the given radix; a numeral of k digits is below radix^k. */
  function DigitsValue(z: string, radix: nat): (v: nat)
    requires radix == 10 || radix == 16
    requires forall i :: 0 <= i < |z| ==> IsRadixDigit(z[i], radix)
    ensures v < Pow(radix, |z|)
  {
    if z == [] then 0
    else
      var high := DigitsValue(z[..|z| - 1], radix);
      var low := DigitValue(z[|z| - 1], radix);
      MulBelow(high, low, Pow(radix, |z| - 1), radix);
      high * radix + low
  }

  /** A number below p shifted by one place and given a last digit stays below p * radix. */
  lemma MulBelow(high: nat, low: nat, p: nat, radix: nat)
    requires high < p && low < radix
    ensures high * radix + low < radix * p
  {
    assert high * radix <= (p - 1) * radix;
  }

  predicate HasHexPrefix(s: string) {
    |s| >= 2 && s[0] == '0' && (s[1] == 'x' || s[1] == 'X')
  }

  /**
   `parseInt(input)` with the radix argument undefined: NaN exactly when no
   digit follows the white space, the sign and a `0x` prefix.
   */
  function ParseInt(input: string): (r: JsNumber)
    ensures var u := Unsigned(TrimStart(input));
            r == NaN <==> if HasHexPrefix(u) then |u| == 2 || !IsRadixDigit(u[2], 16) else u == [] || !IsDecimalDigit(u[0])
  {
    ParseSigned(TrimStart(input))
  }

  /** The string without its optional leading sign. */
  function Unsigned(s: string): string {
    if s != [] && (s[0] == '-' || s[0] == '+') then s[1..] else s
  }

  /** Steps 4 and 5: a leading `-` sets the sign to -1; a leading `+` or `-` is removed. */
  function ParseSigned(s: string): (r: JsNumber)
    ensures r == NaN <==> ParseUnsigned(Unsigned(s)) == NaN
    ensures r.Num? ==> r.value == ParseUnsigned(Unsigned(s)).value || r.value == -ParseUnsigned(Unsigned(s)).value
    ensures r.Num? && r.value < 0 ==> s != [] && s[0] == '-'
  {
    if s != [] && s[0] == '-' then Negate(ParseUnsigned(Unsigned(s))) else ParseUnsigned(Unsigned(s))
  }

  /** Steps 6 to 10: with no radix given, `0x` or `0X` selects base 16 and is removed, else base 10. */
  function ParseUnsigned(u: string): (r: JsNumber)
    ensures r == NaN <==> if HasHexPrefix(u) then |u| == 2 || !IsRadixDigit(u[2], 16) else u == [] || !IsDecimalDigit(u[0])
    ensures r.Num? ==> r.value >= 0
  {
    if HasHexPrefix(u) then Numeral(u[2..], 16) else Numeral(u, 10)
  }

  /** Steps 11 to 16: the value of the longest digit prefix, NaN when it is empty. */
  function Numeral(s: string, radix: nat): (r: JsNumber)
    requires radix == 10 || radix == 16
    ensures r == NaN <==> s == [] || !IsRadixDigit(s[0], radix)
    ensures r.Num? ==> r.value >= 0
  {
    var z := LongestDigitPrefix(s, radix);
    if z == [] then NaN else Num(DigitsValue(z, radix))
  }

  function Negate(x: JsNumber): JsNumber {
    match x
    case NaN => NaN
    case Num(v) => Num(-v)
  }

  /** A digit value as a character, letters in lower case, as `Number.prototype.toString(radix)` writes it. */
  function RadixDigit(d: nat, radix: nat): (c: char)
    requires (radix == 10 || radix == 16) && d < radix
    ensures IsRadixDigit(c, radix) && DigitValue(c, radix) == d
  {
    if d < 10 then ('0' as int + d) as char else ('a' as int + d - 10) as char
  }

  /** The shortest numeral of a natural number in the radix, as `n.toString(radix)` writes it. */
  function RadixString(n: nat, radix: nat): (s: string)
    requires radix == 10 || radix == 16
    ensures s != []
    ensures forall i :: 0 <= i < |s| ==> IsRadixDigit(s[i], radix)
    ensures |s| > 1 ==> s[0] != '0'
    decreases n
  {
    var last := [RadixDigit(n % radix, radix)];
    if n < radix then last else RadixString(n / radix, radix) + last
  }

  lemma {:induction false} RadixStringValue(n: nat, radix: nat)
    requires radix == 10 || radix == 16
    ensures DigitsValue(RadixString(n, radix), radix) == n
    decreases n
  {
    var s := RadixString(n, radix);
    if n >= radix {
      RadixStringValue(n / radix, radix);
      assert s[..|s| - 1] == RadixString(n / radix, radix);
      assert DigitValue(s[|s| - 1], radix) == n % radix;
    }
  }

  lemma {:induction false} LongestDigitPrefixStops(z: string, rest: string, radix: nat)
    requires forall i :: 0 <= i < |z| ==> IsRadixDigit(z[i], radix)
    requires rest == [] || !IsRadixDigit(rest[0], radix)
    ensures LongestDigitPrefix(z + rest, radix) == z
  {
    if z != [] {
      assert (z + rest)[1..] == z[1..] + rest;
      LongestDigitPrefixStops(z[1..], rest, radix);
    }
  }

  lemma {:induction false} TrimStartSkips(w: string, t: string)
    requires forall i :: 0 <= i < |w| ==> IsStrWhiteSpace(w[i])
    ensures TrimStart(w + t) == TrimStart(t)
  {
    if w != [] {
      var s := w + t;
      assert s[0] == w[0] && IsStrWhiteSpace(s[0]);
      assert TrimStart(s) == TrimStart(s[1..]);
      assert s[1..] == w[1..] + t;
      TrimStartSkips(w[1..], t);
      assert TrimStart(w[1..] + t) == TrimStart(t);
      assert TrimStart(s[1..]) == TrimStart(t);
    } else {
      assert w + t == t;
    }
  }

  /** Leading white space and line terminators do not change the result. */
  lemma LeadingWhiteSpace(w: string, t: string)
    requires forall i :: 0 <= i < |w| ==> IsStrWhiteSpace(w[i])
    ensures ParseInt(w + t) == ParseInt(t)
  {
    TrimStartSkips(w, t);
  }

  /** A decimal numeral without sign, after the sign step. */
  lemma UnsignedDecimal(n: nat, rest: string)
    requires rest == [] || !IsDecimalDigit(rest[0])
    requires !(n == 0 && rest != [] && (rest[0] == 'x' || rest[0] == 'X'))
    ensures ParseUnsigned(RadixString(n, 10) + rest) == Num(n)
  {
    var d := RadixString(n, 10);
    var u := d + rest;
    RadixStringValue(n, 10);
    LongestDigitPrefixStops(d, rest, 10);
    assert u[0] == d[0];
    assert !HasHexPrefix(u) by {
      if |d| == 1 && d[0] == '0' {
        assert d == "0" && DigitsValue(d, 10) == 0;
        if |u| >= 2 {
          assert u[1] == rest[0];
        }
      } else if |d| >= 2 {
        assert d[0] != '0';
      }
    }
    assert Numeral(u, 10) == Num(DigitsValue(d, 10));
  }

  /**
   A decimal numeral followed by anything that is not a digit reads as its
   value. The one exception is "0" followed by `x` or `X`, which starts a
   hexadecimal numeral.
   */
  lemma DecimalNumeral(n: nat, rest: string)
    requires rest == [] || !IsDecimalDigit(rest[0])
    requires !(n == 0 && rest != [] && (rest[0] == 'x' || rest[0] == 'X'))
    ensures ParseInt(RadixString(n, 10) + rest) == Num(n)
  {
    var u := RadixString(n, 10) + rest;
    UnsignedDecimal(n, rest);
    assert IsDecimalDigit(u[0]);
    assert TrimStart(u) == u;
    assert ParseSigned(u) == ParseUnsigned(u);
  }

  /** The same numeral after a minus sign reads as its negation. */
  lemma NegativeDecimalNumeral(n: nat, rest: string)
    requires rest == [] || !IsDecimalDigit(rest[0])
    requires !(n == 0 && rest != [] && (rest[0] == 'x' || rest[0] == 'X'))
    ensures ParseInt("-" + RadixString(n, 10) + rest) == Num(-(n as int))
  {
    var u := RadixString(n, 10) + rest;
    UnsignedDecimal(n, rest);
    assert "-" + RadixString(n, 10) + rest == "-" + u;
    MinusSign(u);
  }

  /**
   A `0x` prefix and a numeral of base 16, followed by anything that is not a
   hexadecimal digit, read as the numeral's value.
   */
  lemma HexNumeral(n: nat, rest: string)
    requires rest == [] || !IsRadixDigit(rest[0], 16)
    ensures ParseInt("0x" + RadixString(n, 16) + rest) == Num(n)
  {
    var s := "0x" + RadixString(n, 16) + rest;
    UnsignedHex(n, rest);
    assert s[0] == '0' && !IsStrWhiteSpace(s[0]);
    assert TrimStart(s) == s;
    assert Unsigned(s) == s;
  }

  /** The hexadecimal case after the sign step. */
  lemma UnsignedHex(n: nat, rest: string)
    requires rest == [] || !IsRadixDigit(rest[0], 16)
    ensures ParseUnsigned("0x" + RadixString(n, 16) + rest) == Num(n)
  {
    var h := RadixString(n, 16);
    var u := "0x" + h + rest;
    assert HasHexPrefix(u) && u[2..] == h + rest;
    RadixStringValue(n, 16);
    LongestDigitPrefixStops(h, rest, 16);
    assert Numeral(h + rest, 16) == Num(DigitsValue(h, 16));
  }

  /** A leading minus sign negates whatever the rest reads as. */
  lemma MinusSign(u: string)
    ensures ParseInt("-" + u) == Negate(ParseUnsigned(u))
  {
    var s := "-" + u;
    assert s[0] == '-' && s[1..] == u;
    assert !IsStrWhiteSpace(s[0]);
    assert TrimStart(s) == s;
  }

  /** A `0x` prefix switches to base 16. */
  lemma HexExample()
    ensures ParseInt("0x1A") == Num(26)
  {
    var s := "0x1A";
    assert TrimStart(s) == s;
    assert HasHexPrefix(s) && s[2..] == "1A";
    var z := LongestDigitPrefix("1A", 16);
    assert "1A"[1..] == "A" && LongestDigitPrefix("A", 16) == "A";
    assert z == "1A";
    assert z[..1] == "1";
    assert DigitsValue(z, 16) == DigitsValue("1", 16) * 16 + 10;
  }

  /** Leading spaces, a sign and a non-digit tail: "  -12px" reads as -12. */
  lemma SignedExample()
    ensures ParseInt("  -12px") == Num(-12)
  {
    assert TrimStart("  -12px") == "-12px";
    NegativeDecimalNumeral(12, "px");
    assert RadixString(12, 10) == "12";
    assert "-" + "12" + "px" == "-12px";
  }

  /** A fraction is cut at the point, and no digit at all gives NaN. */
  lemma TruncationAndNaNExamples()
    ensures ParseInt("3.9") == Num(3)
    ensures ParseInt("") == NaN && ParseInt("abc") == NaN && ParseInt("0x") == NaN
  {
    DecimalNumeral(3, ".9");
    assert RadixString(3, 10) + ".9" == "3.9";
    assert TrimStart("") == "" && Unsigned("") == "";
    assert !IsStrWhiteSpace('a') && TrimStart("abc") == "abc" && Unsigned("abc") == "abc";
    assert !IsStrWhiteSpace('0') && TrimStart("0x") == "0x" && Unsigned("0x") == "0x" && HasHexPrefix("0x");
  }
}
