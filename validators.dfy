/**
 * The field validators of the listing form. Each takes the raw text of a
 * field; the year validator takes the current calendar year as a parameter
 * instead of reading the clock.
 */
module Validators {

  import opened Wrappers
  import opened JsParseInt
  import opened PhonePattern

  const MinYear: int := 1900
  const MaxKm: int := 999999

  /** `validatePhone`: the whole text matches `^\+91[6-9]\d{9}$`. */
  predicate ValidatePhone(phone: string) {
    Matches(IndianMobile, phone)
  }

  /** `validateKmDriven`: parseInt gives a number (not NaN) in [0, 999999]. */
  predicate ValidateKmDriven(km: string) {
    match ParseInt(km)
    case Some(n) => 0 <= n <= MaxKm
    case None => false
  }

  /** `validateYear`: parseInt gives a number (not NaN) in [1900, currentYear]. */
  predicate ValidateYear(year: string, currentYear: int) {
    match ParseInt(year)
    case Some(n) => MinYear <= n <= currentYear
    case None => false
  }

  /**
   * The price rule written inline in `validate`: the text is rejected when
   * parseInt gives NaN or a number that is not positive.
   */
  predicate ValidPrice(price: string) {
    match ParseInt(price)
    case Some(n) => n > 0
    case None => false
  }

  /** A phone number is accepted iff it is "+91", one of 6-9, then nine ASCII digits, and nothing else. */
  lemma ValidatePhoneIff(phone: string)
    ensures ValidatePhone(phone) <==>
            |phone| == 13 && phone[..3] == "+91" && '6' <= phone[3] <= '9' &&
            (forall i :: 4 <= i < 13 ==> IsDigit(phone[i]))
  {
    IndianMobileIff(phone);
  }

  lemma PhoneExamples()
    ensures ValidatePhone("+919812345678")
    ensures !ValidatePhone("+915812345678")
    ensures !ValidatePhone("+91981234567")
    ensures !ValidatePhone("9812345678")
  {
    ValidatePhoneIff("+919812345678");
    ValidatePhoneIff("+915812345678");
    ValidatePhoneIff("+91981234567");
    ValidatePhoneIff("9812345678");
    assert "+919812345678"[..3] == "+91";
  }

  /** A reading in numeral parts passes iff the signed value of its digit run lies in [0, 999999]. */
  lemma ValidateKmDrivenNumeral(s: string, ws: string, sign: string, ds: string, rest: string)
    requires NumeralParts(s, ws, sign, ds, rest)
    ensures ValidateKmDriven(s) <==> 0 <= Signed(sign == "-", ValueOf(ds)) <= MaxKm
  {
    ParseIntNumeral(s, ws, sign, ds, rest);
  }

  /** A year in numeral parts passes iff the signed value of its digit run lies in [1900, currentYear]. */
  lemma ValidateYearNumeral(s: string, ws: string, sign: string, ds: string, rest: string, currentYear: int)
    requires NumeralParts(s, ws, sign, ds, rest)
    ensures ValidateYear(s, currentYear) <==> MinYear <= Signed(sign == "-", ValueOf(ds)) <= currentYear
  {
    ParseIntNumeral(s, ws, sign, ds, rest);
  }

  /** A price in numeral parts passes iff the signed value of its digit run is positive. */
  lemma ValidPriceNumeral(s: string, ws: string, sign: string, ds: string, rest: string)
    requires NumeralParts(s, ws, sign, ds, rest)
    ensures ValidPrice(s) <==> Signed(sign == "-", ValueOf(ds)) > 0
  {
    ParseIntNumeral(s, ws, sign, ds, rest);
  }

  /** A reading with leading white space, a plus sign and leading zeros passes: " +0500" reads as 500. */
  lemma KmDrivenPaddedNumeral()
    ensures ValidateKmDriven(" +0500")
  {
    assert " +0500" == " " + "+" + "0500" + "";
    assert ValueOf("0500") == 500;
    ValidateKmDrivenNumeral(" +0500", " ", "+", "0500", "");
  }

  /** Every integer, written as JavaScript writes it, is accepted as a kilometre reading iff it lies in [0, 999999]. */
  lemma ValidateKmDrivenShow(s: string, n: int, rest: string)
    requires s == Show(n) + rest
    requires rest == [] || !IsDigit(rest[0])
    ensures ValidateKmDriven(s) <==> 0 <= n <= MaxKm
  {
    ParseIntShow(n, rest);
  }

  /** Every integer, written as JavaScript writes it, is accepted as a year iff it lies in [1900, currentYear]. */
  lemma ValidateYearShow(s: string, n: int, rest: string, currentYear: int)
    requires s == Show(n) + rest
    requires rest == [] || !IsDigit(rest[0])
    ensures ValidateYear(s, currentYear) <==> MinYear <= n <= currentYear
  {
    ParseIntShow(n, rest);
  }

  /** Every integer, written as JavaScript writes it, is accepted as a price iff it is positive. */
  lemma ValidPriceShow(s: string, n: int, rest: string)
    requires s == Show(n) + rest
    requires rest == [] || !IsDigit(rest[0])
    ensures ValidPrice(s) <==> n > 0
  {
    ParseIntShow(n, rest);
  }

  /** Text without digits is NaN to parseInt, so every numeric validator rejects it. */
  lemma NoDigitsRejected(s: string, currentYear: int)
    requires forall i :: 0 <= i < |s| ==> !IsDigit(s[i])
    ensures !ValidateKmDriven(s) && !ValidateYear(s, currentYear) && !ValidPrice(s)
  {
    NoDigitsIsNaN(s);
  }

  lemma ShownKmBounds()
    ensures Show(0) == "0" && Show(999999) == "999999"
    ensures Show(-1) == "-1" && Show(1000000) == "1000000"
  {
  }

  lemma ShownSmall()
    ensures Show(12) == "12" && Show(1) == "1"
    ensures Show(1899) == "1899" && Show(1900) == "1900"
  {
  }

  /** The kilometre bounds: "0" and "999999" pass, "-1" and "1000000" fail. */
  lemma KmDrivenBounds()
    ensures ValidateKmDriven("0") && ValidateKmDriven("999999")
    ensures !ValidateKmDriven("-1") && !ValidateKmDriven("1000000")
  {
    ShownKmBounds();
    ValidateKmDrivenShow("0", 0, "");
    ValidateKmDrivenShow("999999", 999999, "");
    ValidateKmDrivenShow("-1", -1, "");
    ValidateKmDrivenShow("1000000", 1000000, "");
  }

  /** Prefix parsing: "12abc" is read as 12, so it passes. */
  lemma KmDrivenTrailingLetters()
    ensures ValidateKmDriven("12abc")
  {
    ShownSmall();
    assert "12abc" == Show(12) + "abc";
    ValidateKmDrivenShow("12abc", 12, "abc");
  }

  /** Prefix parsing stops at the exponent: "1e7" is read as 1, so it passes. */
  lemma KmDrivenExponent()
    ensures ValidateKmDriven("1e7")
  {
    ShownSmall();
    assert "1e7" == Show(1) + "e7";
    ValidateKmDrivenShow("1e7", 1, "e7");
  }

  /** No digits at all: "abc" is NaN and fails. */
  lemma KmDrivenLetters()
    ensures !ValidateKmDriven("abc")
  {
    NoDigitsRejected("abc", 0);
  }

  /** The fixed year bounds: 1899 fails and 1900 passes whenever the current year is at least 1900. */
  lemma YearLowerBound(currentYear: int)
    requires currentYear >= MinYear
    ensures !ValidateYear("1899", currentYear) && ValidateYear("1900", currentYear)
  {
    ShownSmall();
    ValidateYearShow("1899", 1899, "", currentYear);
    ValidateYearShow("1900", 1900, "", currentYear);
  }

  /** The moving year bound: the current year passes and the next one fails. */
  lemma YearUpperBound(currentYear: int)
    requires currentYear >= MinYear
    ensures ValidateYear(Show(currentYear), currentYear)
    ensures !ValidateYear(Show(currentYear + 1), currentYear)
  {
    ValidateYearShow(Show(currentYear), currentYear, "", currentYear);
    ValidateYearShow(Show(currentYear + 1), currentYear + 1, "", currentYear);
  }
}
