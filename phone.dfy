/**
 * The recipient number `sendMessage` hands to the WhatsApp gateway: digits
 * only, no national trunk `0`, and the Iraqi country code `964` in front.
 */
module Phone {
  import opened JsText

  const CountryCode: string := "964"

  predicate StartsWith(s: string, prefix: string) {
    |prefix| <= |s| && s[..|prefix|] == prefix
  }

  /** `to.replace(/\D/g, '')`: the ASCII digits of `to`, in order. */
  function DigitsOnly(to: string): (r: string)
    ensures |r| <= |to|
    ensures IsDigitString(r)
  {
    if to == [] then []
    else (if IsAsciiDigit(to[0]) then [to[0]] else []) + DigitsOnly(to[1..])
  }

  /** A text of digits keeps all of them. */
  lemma {:induction false} DigitsOnlyKeepsDigits(s: string)
    requires IsDigitString(s)
    ensures DigitsOnly(s) == s
  {
    if s != [] {
      DigitsOnlyKeepsDigits(s[1..]);
    }
  }

  /** The number `sendMessage` sends to. */
  function FormattedPhone(to: string): string {
    var digits := DigitsOnly(to);
    var national := if StartsWith(digits, "0") then digits[1..] else digits;
    if StartsWith(national, CountryCode) then national else CountryCode + national
  }

  /** The three reassignments of `formattedNumber` in `sendMessage`. */
  method FormatPhone(to: string) returns (formattedNumber: string)
    ensures formattedNumber == FormattedPhone(to)
    ensures IsDigitString(formattedNumber) && StartsWith(formattedNumber, CountryCode)
  {
    formattedNumber := DigitsOnly(to);
    if StartsWith(formattedNumber, "0") {
      formattedNumber := formattedNumber[1..];
    }
    if !StartsWith(formattedNumber, CountryCode) {
      formattedNumber := CountryCode + formattedNumber;
    }
  }

  /** The formatted number is made of ASCII digits and carries the country code. */
  lemma FormattedPhoneShape(to: string)
    ensures IsDigitString(FormattedPhone(to))
    ensures StartsWith(FormattedPhone(to), CountryCode)
  {
  }

  /** A number already in gateway form is sent to as it is. */
  lemma FormattedPhoneFixesCanonical(n: string)
    requires IsDigitString(n) && StartsWith(n, CountryCode)
    ensures FormattedPhone(n) == n
  {
    DigitsOnlyKeepsDigits(n);
  }

  lemma FormattedPhoneIdempotent(to: string)
    ensures FormattedPhone(FormattedPhone(to)) == FormattedPhone(to)
  {
    FormattedPhoneShape(to);
    FormattedPhoneFixesCanonical(FormattedPhone(to));
  }

  /** The subscriber digits survive: the result ends with the digits of `to`
      after one leading `0` is dropped. */
  lemma FormattedPhoneKeepsSubscriber(to: string)
    ensures var digits := DigitsOnly(to);
            var national := if StartsWith(digits, "0") then digits[1..] else digits;
            |national| <= |FormattedPhone(to)|
            && FormattedPhone(to)[|FormattedPhone(to)| - |national|..] == national
  {
  }

  /** A local number written with its trunk `0` is sent to with the country
      code in place of the `0`. */
  lemma FormattedLocal(subscriber: string)
    requires IsDigitString(subscriber) && !StartsWith(subscriber, CountryCode)
    ensures FormattedPhone("0" + subscriber) == CountryCode + subscriber
  {
    DigitsOnlyKeepsDigits("0" + subscriber);
    assert ("0" + subscriber)[1..] == subscriber;
  }

  /** Characters other than digits do not change the recipient: a number
      written with `+`, spaces or dashes is sent to as its bare digits. */
  lemma FormattedIgnoresSeparator(before: string, separator: char, after: string)
    requires !IsAsciiDigit(separator)
    ensures FormattedPhone(before + [separator] + after) == FormattedPhone(before + after)
  {
    DigitsOnlyConcat(before + [separator], after);
    DigitsOnlyConcat(before, [separator]);
    DigitsOnlyConcat(before, after);
    assert DigitsOnly([separator]) == [];
    assert DigitsOnly(before) + [] == DigitsOnly(before);
  }

  lemma {:induction false} DigitsOnlyConcat(a: string, b: string)
    ensures DigitsOnly(a + b) == DigitsOnly(a) + DigitsOnly(b)
  {
    if a != [] {
      assert (a + b)[1..] == a[1..] + b;
      DigitsOnlyConcat(a[1..], b);
    } else {
      assert a + b == b;
    }
  }
}
