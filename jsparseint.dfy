/**
 * JavaScript's `parseInt(s, 10)` over mathematical integers: skip leading
 * white space, take an optional sign, then the longest run of ASCII digits;
 * with no digits the result is NaN, modelled as `None`.
 */
module JsParseInt {

  import opened Wrappers

  /** The WhiteSpace and LineTerminator code points that parseInt skips. */
  predicate IsJsWhitespace(c: char) {
    || c == '\t' || c == '\n' || c == '\U{000B}' || c == '\U{000C}' || c == '\r'
    || c == ' ' || c == '\U{00A0}' || c == '\U{1680}' || ('\U{2000}' <= c <= '\U{200A}')
    || c == '\U{2028}' || c == '\U{2029}' || c == '\U{202F}' || c == '\U{205F}'
    || c == '\U{3000}' || c == '\U{FEFF}'
  }

  /** Radix 10 accepts the ASCII digits only. */
  predicate IsDigit(c: char) {
    '0' <= c <= '9'
  }

  predicate AllDigits(s: string) {
    forall i :: 0 <= i < |s| ==> IsDigit(s[i])
  }

  predicate AllWhitespace(s: string) {
    forall i :: 0 <= i < |s| ==> IsJsWhitespace(s[i])
  }

  function DigitValue(c: char): (d: nat)
    requires IsDigit(c)
    ensures d < 10
  {
    (c as int) - ('0' as int)
  }

  function DigitChar(d: nat): (c: char)
    requires d < 10
    ensures IsDigit(c) && DigitValue(c) == d
  {
    (('0' as int) + d) as char
  }

  /** `s` without its leading white space. */
  function TrimStart(s: string): string {
    if s != [] && IsJsWhitespace(s[0]) then TrimStart(s[1..]) else s
  }

  /** The longest prefix of `s` made of ASCII digits. */
  function DigitRun(s: string): (r: string)
    ensures AllDigits(r)
  {
    if s != [] && IsDigit(s[0]) then [s[0]] + DigitRun(s[1..]) else []
  }

  /** TrimStart removes a prefix of white space and stops at the first other character. */
  lemma {:induction false} TrimStartShape(s: string)
    ensures var r := TrimStart(s);
      && |r| <= |s| && r == s[|s| - |r|..]
      && AllWhitespace(s[..|s| - |r|])
      && (r == [] || !IsJsWhitespace(r[0]))
  {
    if s != [] && IsJsWhitespace(s[0]) {
      TrimStartShape(s[1..]);
      var r := TrimStart(s[1..]);
      assert s[1..][..|s| - 1 - |r|] == s[1..|s| - |r|];
      assert forall i :: 1 <= i < |s| - |r| ==> s[i] == s[1..][..|s| - 1 - |r|][i - 1];
    }
  }

  /** DigitRun yields a prefix of ASCII digits that the next character, if any, does not extend. */
  lemma {:induction false} DigitRunShape(s: string)
    ensures var r := DigitRun(s);
      && |r| <= |s| && r == s[..|r|]
      && (|r| == |s| || !IsDigit(s[|r|]))
  {
    if s != [] && IsDigit(s[0]) {
      DigitRunShape(s[1..]);
    }
  }

  /** Horner's rule: `acc` followed by the digits `ds`, most significant first. */
  function Horner(acc: nat, ds: string): nat
    requires AllDigits(ds)
    decreases ds
  {
    if ds == [] then acc else Horner(10 * acc + DigitValue(ds[0]), ds[1..])
  }

  /** The value of a decimal numeral. */
  function ValueOf(ds: string): nat
    requires AllDigits(ds)
  {
    Horner(0, ds)
  }

  /** The part of `s` after the leading white space and an optional sign. */
  function Unsigned(s: string): string {
    var t := TrimStart(s);
    if t != [] && (t[0] == '-' || t[0] == '+') then t[1..] else t
  }

  predicate IsNegative(s: string) {
    var t := TrimStart(s);
    t != [] && t[0] == '-'
  }

  function Signed(negative: bool, v: nat): int {
    if negative then -(v as int) else v
  }

  /** `parseInt(s, 10)`; `None` is NaN. A negative zero is the integer 0. */
  function ParseInt(s: string): Option<int> {
    var ds := DigitRun(Unsigned(s));
    if ds == [] then None else Some(Signed(IsNegative(s), ValueOf(ds)))
  }

  /** The canonical decimal numeral of `n`: no sign, no leading zeros. */
  function Decimal(n: nat): (r: string)
    ensures r != [] && AllDigits(r)
    ensures |r| > 1 ==> r[0] != '0'
  {
    if n < 10 then [DigitChar(n)] else Decimal(n / 10) + [DigitChar(n % 10)]
  }

  /** How JavaScript writes an integer below 10^21 in magnitude: a minus sign for negatives, then the decimal numeral. */
  function Show(n: int): (r: string)
    ensures r != []
  {
    if n < 0 then "-" + Decimal(-n) else Decimal(n)
  }

  /** Appending a digit multiplies the value so far by ten and adds the digit. */
  lemma {:induction false} HornerAppend(acc: nat, ds: string, c: char)
    requires AllDigits(ds) && IsDigit(c)
    ensures AllDigits(ds + [c])
    ensures Horner(acc, ds + [c]) == 10 * Horner(acc, ds) + DigitValue(c)
    decreases ds
  {
    if ds != [] {
      assert (ds + [c])[1..] == ds[1..] + [c];
      HornerAppend(10 * acc + DigitValue(ds[0]), ds[1..], c);
    }
  }

  lemma {:induction false} ValueOfDecimal(n: nat)
    ensures ValueOf(Decimal(n)) == n
  {
    if n >= 10 {
      var init := Decimal(n / 10);
      assert Decimal(n) == init + [DigitChar(n % 10)];
      HornerAppend(0, init, DigitChar(n % 10));
      ValueOfDecimal(n / 10);
      assert ValueOf(Decimal(n)) == 10 * (n / 10) + n % 10;
    } else {
      var ds := [DigitChar(n)];
      assert ds[1..] == [];
      assert Horner(0, ds) == Horner(n, []);
    }
  }

  lemma {:induction false} TrimStartSkipsWhitespace(ws: string, t: string)
    requires AllWhitespace(ws)
    requires t == [] || !IsJsWhitespace(t[0])
    ensures TrimStart(ws + t) == t
  {
    if ws != [] {
      assert (ws + t)[1..] == ws[1..] + t;
      TrimStartSkipsWhitespace(ws[1..], t);
    }
  }

  lemma {:induction false} DigitRunStopsAtNonDigit(ds: string, rest: string)
    requires AllDigits(ds)
    requires rest == [] || !IsDigit(rest[0])
    ensures DigitRun(ds + rest) == ds
  {
    if ds != [] {
      assert (ds + rest)[1..] == ds[1..] + rest;
      DigitRunStopsAtNonDigit(ds[1..], rest);
    }
  }

  /** After the white space, the sign is consumed and remembered. */
  lemma UnsignedAfterSign(ws: string, sign: string, body: string)
    requires AllWhitespace(ws)
    requires sign == "" || sign == "+" || sign == "-"
    requires body != [] && IsDigit(body[0])
    ensures Unsigned(ws + sign + body) == body
    ensures IsNegative(ws + sign + body) == (sign == "-")
  {
    var t := sign + body;
    assert ws + sign + body == ws + t;
    assert t[0] == if sign == "" then body[0] else sign[0];
    TrimStartSkipsWhitespace(ws, t);
    if sign != "" {
      assert t[1..] == body;
    }
  }

  /**
   * `s` reads as the white space `ws`, an optional `sign`, the non-empty
   * digit run `ds`, and a `rest` that does not continue the digits.
   */
  predicate NumeralParts(s: string, ws: string, sign: string, ds: string, rest: string) {
    && s == ws + sign + ds + rest
    && AllWhitespace(ws)
    && (sign == "" || sign == "+" || sign == "-")
    && ds != [] && AllDigits(ds)
    && (rest == [] || !IsDigit(rest[0]))
  }

  /** A text in those parts parses to the signed value of its digit run. */
  lemma ParseIntNumeral(s: string, ws: string, sign: string, ds: string, rest: string)
    requires NumeralParts(s, ws, sign, ds, rest)
    ensures ParseInt(s) == Some(Signed(sign == "-", ValueOf(ds)))
  {
    var body := ds + rest;
    assert s == ws + sign + body;
    UnsignedAfterSign(ws, sign, body);
    DigitRunStopsAtNonDigit(ds, rest);
  }

  /** Round trip: parseInt reads back every integer as JavaScript writes it, whatever non-digit text follows. */
  lemma ParseIntShow(n: int, rest: string)
    requires rest == [] || !IsDigit(rest[0])
    ensures ParseInt(Show(n) + rest) == Some(n)
  {
    var m: nat := if n < 0 then -n else n;
    var sign := if n < 0 then "-" else "";
    assert Show(n) == sign + Decimal(m);
    ValueOfDecimal(m);
    ParseIntNumeral(Show(n) + rest, "", sign, Decimal(m), rest);
  }

  /** A string without any ASCII digit parses to NaN. */
  lemma NoDigitsIsNaN(s: string)
    requires forall i :: 0 <= i < |s| ==> !IsDigit(s[i])
    ensures ParseInt(s) == None
  {
    var u := Unsigned(s);
    var t := TrimStart(s);
    TrimStartShape(s);
    assert u == t || u == t[1..];
    if u != [] {
      assert u[0] == s[|s| - |u|];
    }
  }

  /** Every text splits into its leading white space, an optional sign, and what `Unsigned` leaves. */
  lemma SignParts(s: string) returns (ws: string, sign: string)
    ensures s == ws + sign + Unsigned(s)
    ensures AllWhitespace(ws) && (sign == "" || sign == "+" || sign == "-")
    ensures IsNegative(s) == (sign == "-")
  {
    TrimStartShape(s);
    var t := TrimStart(s);
    ws := s[..|s| - |t|];
    assert s == ws + t;
    if t != [] && (t[0] == '-' || t[0] == '+') {
      sign := if t[0] == '-' then "-" else "+";
      assert t == sign + t[1..];
    } else {
      sign := "";
      assert ws + sign + t == ws + t;
    }
  }

  /** Every text splits into its leading digit run and a rest that does not start with a digit. */
  lemma DigitParts(u: string) returns (rest: string)
    ensures u == DigitRun(u) + rest
    ensures rest == [] || !IsDigit(rest[0])
  {
    DigitRunShape(u);
    rest := u[|DigitRun(u)|..];
    assert u == u[..|DigitRun(u)|] + rest;
  }

  /**
   * parseInt yields `n` exactly when the text is white space, an optional
   * sign, a digit run whose signed value is `n`, and text that does not
   * continue the digits.
   */
  lemma ParseIntIff(s: string, n: int)
    ensures ParseInt(s) == Some(n) <==>
            exists ws, sign, ds, rest :: NumeralParts(s, ws, sign, ds, rest) && n == Signed(sign == "-", ValueOf(ds))
  {
    if ParseInt(s) == Some(n) {
      var ws, sign := SignParts(s);
      var u := Unsigned(s);
      var rest := DigitParts(u);
      var ds := DigitRun(u);
      assert s == ws + sign + ds + rest;
      assert NumeralParts(s, ws, sign, ds, rest);
    }
    if exists ws, sign, ds, rest :: NumeralParts(s, ws, sign, ds, rest) && n == Signed(sign == "-", ValueOf(ds)) {
      var ws, sign, ds, rest :| NumeralParts(s, ws, sign, ds, rest) && n == Signed(sign == "-", ValueOf(ds));
      ParseIntNumeral(s, ws, sign, ds, rest);
    }
  }
}
