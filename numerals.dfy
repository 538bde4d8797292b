/**
 * Numbers typed by a reporter: the Arabic-Indic digit conversion of the count
 * step and JavaScript's `parseInt` called without a radix.
 */
module Numerals {
  import opened Wrappers
  import opened JsText

  /** The two tables of the count step, in value order. */
  const ArabicNumbers: seq<char> := ['٠', '١', '٢', '٣', '٤', '٥', '٦', '٧', '٨', '٩']
  const EnglishNumbers: seq<char> := ['0', '1', '2', '3', '4', '5', '6', '7', '8', '9']

  predicate IsArabicIndicDigit(c: char) {
    '٠' <= c <= '٩'
  }

  /** The ASCII digit of the same value as an Arabic-Indic digit; every other
      character stays as it is. */
  function AsciiOf(c: char): char {
    if IsArabicIndicDigit(c) then (c as int - '٠' as int + '0' as int) as char else c
  }

  /** `s.replace(new RegExp(from, 'g'), to)` for a one-character pattern
      without regular-expression metacharacters. */
  function ReplaceAll(s: string, from: char, to: char): (r: string)
    ensures |r| == |s|
    ensures forall k :: 0 <= k < |s| ==> r[k] == if s[k] == from then to else s[k]
  {
    if s == [] then [] else [if s[0] == from then to else s[0]] + ReplaceAll(s[1..], from, to)
  }

  /** The text after all ten replacements of the count step. */
  function NormalizeDigits(s: string): (r: string)
    ensures |r| == |s|
    ensures forall k :: 0 <= k < |s| ==> r[k] == AsciiOf(s[k])
  {
    if s == [] then [] else [AsciiOf(s[0])] + NormalizeDigits(s[1..])
  }

  /** A character after the replacements for the digit values below `n`. */
  function MappedBelow(c: char, n: int): char {
    if IsArabicIndicDigit(c) && c as int - '٠' as int < n then AsciiOf(c) else c
  }

  /** The conversion loop of the count step: the i-th replacement turns the
      i-th Arabic-Indic digit into the i-th ASCII digit everywhere. */
  method ConvertArabicDigits(text: string) returns (countText: string)
    ensures countText == NormalizeDigits(text)
  {
    countText := text;
    for i := 0 to |ArabicNumbers|
      invariant |countText| == |text|
      invariant forall k :: 0 <= k < |text| ==> countText[k] == MappedBelow(text[k], i)
    {
      countText := ReplaceAll(countText, ArabicNumbers[i], EnglishNumbers[i]);
    }
  }

  /** No Arabic-Indic digit survives the conversion, and every other character
      is kept. */
  lemma NormalizeDigitsResult(s: string)
    ensures forall k :: 0 <= k < |s| ==> !IsArabicIndicDigit(NormalizeDigits(s)[k])
    ensures forall k :: 0 <= k < |s| && !IsArabicIndicDigit(s[k]) ==> NormalizeDigits(s)[k] == s[k]
    ensures forall k :: 0 <= k < |s| ==> (IsAsciiDigit(NormalizeDigits(s)[k]) <==> IsAsciiDigit(s[k]) || IsArabicIndicDigit(s[k]))
  {
  }

  lemma NormalizeDigitsIdempotent(s: string)
    ensures NormalizeDigits(NormalizeDigits(s)) == NormalizeDigits(s)
  {
    NormalizeDigitsResult(s);
  }

  /** A text without Arabic-Indic digits is left as it is. */
  lemma NormalizeDigitsKeeps(s: string)
    requires forall k :: 0 <= k < |s| ==> !IsArabicIndicDigit(s[k])
    ensures NormalizeDigits(s) == s
  {
    assert forall k :: 0 <= k < |s| ==> NormalizeDigits(s)[k] == s[k];
  }

  lemma NormalizeDigitsConcat(a: string, b: string)
    ensures NormalizeDigits(a + b) == NormalizeDigits(a) + NormalizeDigits(b)
  {
  }

  /** The value of a digit character in radix 36 notation, as `parseInt` reads it. */
  function DigitValue(c: char): nat {
    if '0' <= c <= '9' then c as int - '0' as int
    else if 'a' <= c <= 'z' then c as int - 'a' as int + 10
    else if 'A' <= c <= 'Z' then c as int - 'A' as int + 10
    else 36
  }

  predicate IsRadixDigit(c: char, radix: nat) {
    DigitValue(c) < radix
  }

  /** Length of the longest prefix of `s` made of digits of `radix`. */
  function DigitRun(s: string, radix: nat): (n: nat)
    ensures n <= |s|
    ensures forall k :: 0 <= k < n ==> IsRadixDigit(s[k], radix)
    ensures n < |s| ==> !IsRadixDigit(s[n], radix)
  {
    if |s| > 0 && IsRadixDigit(s[0], radix) then 1 + DigitRun(s[1..], radix) else 0
  }

  /** The number a digit string denotes, most significant digit first. */
  function DigitsValue(ds: string, radix: nat): nat {
    if ds == [] then 0
    else DigitsValue(ds[..|ds| - 1], radix) * radix + DigitValue(ds[|ds| - 1])
  }

  /** `parseInt(s)` without a radix (section 19.2.5 of ECMA-262): leading
      whitespace is skipped, an optional sign is read, a `0x`/`0X` prefix
      selects radix 16, the longest run of digits is read and the rest of the
      text is ignored. `None` stands for `NaN`, returned when no digit is read. */
  function ParseInt(s: string): Option<int> {
    var t := s[LeadingSpaces(s)..];
    var sign := if |t| > 0 && t[0] == '-' then -1 else 1;
    var u := if |t| > 0 && (t[0] == '-' || t[0] == '+') then t[1..] else t;
    var hex := |u| >= 2 && u[0] == '0' && (u[1] == 'x' || u[1] == 'X');
    var radix := if hex then 16 else 10;
    var body := if hex then u[2..] else u;
    var n := DigitRun(body, radix);
    if n == 0 then None else Some(sign * DigitsValue(body[..n], radix))
  }

  /** The decimal rendering of a natural number, as `String(n)` gives it. */
  function DecimalString(n: nat): (s: string)
    ensures |s| > 0
    ensures IsDigitString(s)
    ensures s[0] == '0' ==> n == 0
  {
    if n < 10 then [EnglishNumbers[n]] else DecimalString(n / 10) + [EnglishNumbers[n % 10]]
  }

  /** The same rendering in Arabic-Indic digits. */
  function ArabicDecimalString(n: nat): (s: string)
    ensures |s| > 0
    ensures forall k :: 0 <= k < |s| ==> IsArabicIndicDigit(s[k])
  {
    if n < 10 then [ArabicNumbers[n]] else ArabicDecimalString(n / 10) + [ArabicNumbers[n % 10]]
  }

  lemma {:induction false} DecimalStringValue(n: nat)
    ensures DigitRun(DecimalString(n), 10) == |DecimalString(n)|
    ensures DigitsValue(DecimalString(n), 10) == n
  {
    var s := DecimalString(n);
    if n >= 10 {
      DecimalStringValue(n / 10);
      assert s[..|s| - 1] == DecimalString(n / 10);
    }
  }

  /** `parseInt` reads back the decimal rendering of any natural number, even
      when other text follows it, as long as that text does not continue the
      number (another digit) or turn a lone `0` into the `0x` prefix. */
  lemma ParseIntDecimal(n: nat, rest: string)
    requires rest == [] || (!IsAsciiDigit(rest[0]) && (n != 0 || (rest[0] != 'x' && rest[0] != 'X')))
    ensures ParseInt(DecimalString(n) + rest) == Some(n)
  {
    var d := DecimalString(n);
    UnsignedDecimal(n, rest);
    assert (d + rest)[0] == d[0];
    ParseIntUnsigned(d + rest);
  }

  /** With a leading minus sign the same text reads as the negated number. */
  lemma ParseIntNegative(n: nat, rest: string)
    requires rest == [] || (!IsAsciiDigit(rest[0]) && (n != 0 || (rest[0] != 'x' && rest[0] != 'X')))
    ensures ParseInt("-" + (DecimalString(n) + rest)) == Some(-(n as int))
  {
    var d := DecimalString(n);
    UnsignedDecimal(n, rest);
    assert (d + rest)[0] == d[0];
    ParseIntMinus(d + rest);
  }

  /** Text starting with a decimal digit and no `0x` prefix reads as the
      value of its leading digit run. */
  lemma ParseIntUnsigned(u: string)
    requires |u| > 0 && IsAsciiDigit(u[0])
    requires !(|u| >= 2 && u[0] == '0' && (u[1] == 'x' || u[1] == 'X'))
    ensures ParseInt(u) == Some(DigitsValue(u[..DigitRun(u, 10)], 10))
  {
    assert LeadingSpaces(u) == 0;
    assert u[0..] == u;
  }

  /** The same text after a minus sign reads as the negated value. */
  lemma ParseIntMinus(u: string)
    requires |u| > 0 && IsAsciiDigit(u[0])
    requires !(|u| >= 2 && u[0] == '0' && (u[1] == 'x' || u[1] == 'X'))
    ensures ParseInt("-" + u) == Some(-1 * DigitsValue(u[..DigitRun(u, 10)], 10))
  {
    var s := "-" + u;
    assert s[0] == '-';
    assert LeadingSpaces(s) == 0;
    assert s[0..] == s;
    assert s[1..] == u;
  }

  lemma UnsignedDecimal(n: nat, rest: string)
    requires rest == [] || (!IsAsciiDigit(rest[0]) && (n != 0 || (rest[0] != 'x' && rest[0] != 'X')))
    ensures var u := DecimalString(n) + rest;
            && !(|u| >= 2 && u[0] == '0' && (u[1] == 'x' || u[1] == 'X'))
            && DigitRun(u, 10) == |DecimalString(n)|
            && u[..DigitRun(u, 10)] == DecimalString(n)
            && DigitsValue(DecimalString(n), 10) == n
  {
    var d := DecimalString(n);
    var u := d + rest;
    DecimalStringValue(n);
    DigitRunPrefix(d, rest);
    assert u[..|d|] == d;
    if |u| >= 2 && u[0] == '0' {
      assert n == 0 && |d| == 1;
      assert u[1] == rest[0];
    }
  }

  lemma {:induction false} DigitRunPrefix(d: string, rest: string)
    requires DigitRun(d, 10) == |d|
    requires rest == [] || !IsAsciiDigit(rest[0])
    ensures DigitRun(d + rest, 10) == |d|
  {
    if d == [] {
      assert d + rest == rest;
    } else {
      assert (d + rest)[1..] == d[1..] + rest;
      DigitRunPrefix(d[1..], rest);
    }
  }

  /** Text that starts with anything other than whitespace, a sign or a digit
      is not a number. */
  lemma ParseIntNoDigits(s: string)
    requires s != [] && !IsJsSpace(s[0]) && !IsAsciiDigit(s[0]) && s[0] != '+' && s[0] != '-'
    ensures ParseInt(s) == None
  {
    assert LeadingSpaces(s) == 0;
    assert s[0..] == s;
  }

  /** Writing a number in Arabic-Indic digits and converting gives the ASCII
      rendering. */
  lemma {:induction false} NormalizeArabicDecimal(n: nat)
    ensures NormalizeDigits(ArabicDecimalString(n)) == DecimalString(n)
  {
    if n >= 10 {
      NormalizeArabicDecimal(n / 10);
      var c := ArabicNumbers[n % 10];
      NormalizeDigitsConcat(ArabicDecimalString(n / 10), [c]);
      AsciiOfArabicDigit(n % 10);
      assert NormalizeDigits([c]) == [EnglishNumbers[n % 10]];
    }
  }

  /** The two tables agree digit by digit. */
  lemma AsciiOfArabicDigit(i: nat)
    requires i < 10
    ensures AsciiOf(ArabicNumbers[i]) == EnglishNumbers[i]
  {
  }
}
