/**
 * Anchored regular expressions built from character classes with fixed
 * repetition counts, which is the form of the phone pattern `^\+91[6-9]\d{9}$`.
 * Without the `u` flag, `\d` is the ASCII class `[0-9]`, and without the
 * `m` flag `^` and `$` anchor at the ends of the whole input.
 */
module PhonePattern {

  import opened JsParseInt

  datatype CharClass = Exactly(c: char) | Between(lo: char, hi: char)

  predicate InClass(k: CharClass, c: char) {
    match k
    case Exactly(x) => c == x
    case Between(lo, hi) => lo <= c <= hi
  }

  /** An atom repeated exactly `count` times (`x` alone is `x{1}`). */
  datatype Term = Term(cls: CharClass, count: nat)

  /** Whole-input match of a sequence of terms, one character at a time. */
  predicate Matches(p: seq<Term>, s: string)
    decreases |s|, |p|
  {
    if p == [] then s == []
    else if p[0].count == 0 then Matches(p[1..], s)
    else s != [] && InClass(p[0].cls, s[0]) && Matches([Term(p[0].cls, p[0].count - 1)] + p[1..], s[1..])
  }

  const Digit: CharClass := Between('0', '9')

  /** `^\+91[6-9]\d{9}$` */
  const IndianMobile: seq<Term> :=
    [Term(Exactly('+'), 1), Term(Exactly('9'), 1), Term(Exactly('1'), 1), Term(Between('6', '9'), 1), Term(Digit, 9)]

  /** The shape the pattern describes, written out position by position. */
  predicate IsIndianMobileShape(s: string) {
    && |s| == 13
    && s[..3] == "+91"
    && '6' <= s[3] <= '9'
    && (forall i :: 4 <= i < 13 ==> IsDigit(s[i]))
  }

  /** A term `k{n}` followed by `rest` matches `s` iff the first `n` characters are in `k` and `rest` matches the others. */
  lemma {:induction false} TermMatches(k: CharClass, n: nat, rest: seq<Term>, s: string)
    ensures Matches([Term(k, n)] + rest, s) <==>
            n <= |s| && (forall i :: 0 <= i < n ==> InClass(k, s[i])) && Matches(rest, s[n..])
  {
    var p := [Term(k, n)] + rest;
    assert p[0] == Term(k, n) && p[1..] == rest;
    if n > 0 && s != [] {
      TermMatches(k, n - 1, rest, s[1..]);
      if n <= |s| {
        assert s[1..][n - 1..] == s[n..];
      }
      if n <= |s| && (forall i :: 0 <= i < n ==> InClass(k, s[i])) {
        assert forall i :: 0 <= i < n - 1 ==> InClass(k, s[1..][i]) by {
          forall i | 0 <= i < n - 1 ensures InClass(k, s[1..][i]) {
            assert s[1..][i] == s[i + 1];
          }
        }
      }
    }
  }

  /** `\d{9}$` accepts exactly the nine-digit strings. */
  lemma NineDigits(t: string)
    ensures Matches([Term(Digit, 9)], t) <==> |t| == 9 && forall i :: 0 <= i < 9 ==> IsDigit(t[i])
  {
    assert [Term(Digit, 9)] == [Term(Digit, 9)] + [];
    TermMatches(Digit, 9, [], t);
    if 9 <= |t| {
      assert Matches([], t[9..]) <==> |t| == 9;
    }
  }

  /** A single-character term consumes one character of its class. */
  lemma OneChar(k: CharClass, rest: seq<Term>, s: string)
    ensures Matches([Term(k, 1)] + rest, s) <==> s != [] && InClass(k, s[0]) && Matches(rest, s[1..])
  {
    TermMatches(k, 1, rest, s);
  }

  /** The four single-character terms `\+91[6-9]` fix the first four characters. */
  lemma PrefixMatches(s: string)
    ensures Matches(IndianMobile, s) <==>
            && 4 <= |s| && s[0] == '+' && s[1] == '9' && s[2] == '1' && '6' <= s[3] <= '9'
            && Matches([Term(Digit, 9)], s[4..])
  {
    var p4 := [Term(Digit, 9)];
    var p3 := [Term(Between('6', '9'), 1)] + p4;
    var p2 := [Term(Exactly('1'), 1)] + p3;
    var p1 := [Term(Exactly('9'), 1)] + p2;
    assert IndianMobile == [Term(Exactly('+'), 1)] + p1;
    OneChar(Exactly('+'), p1, s);
    if 1 <= |s| {
      OneChar(Exactly('9'), p2, s[1..]);
      if 2 <= |s| {
        assert s[1..][1..] == s[2..];
        OneChar(Exactly('1'), p3, s[2..]);
        if 3 <= |s| {
          assert s[2..][1..] == s[3..];
          OneChar(Between('6', '9'), p4, s[3..]);
          if 4 <= |s| {
            assert s[3..][1..] == s[4..];
          }
        }
      }
    }
  }

  /** The regular expression accepts exactly the strings of the written-out shape. */
  lemma IndianMobileIff(s: string)
    ensures Matches(IndianMobile, s) <==> IsIndianMobileShape(s)
  {
    PrefixMatches(s);
    if 4 <= |s| {
      NineDigits(s[4..]);
      if |s| == 13 {
        assert (forall i :: 0 <= i < 9 ==> IsDigit(s[4..][i])) <==>
               (forall i :: 4 <= i < 13 ==> IsDigit(s[i])) by {
          assert forall i :: 0 <= i < 9 ==> s[4..][i] == s[i + 4];
        }
        assert s[..3] == "+91" <==> s[0] == '+' && s[1] == '9' && s[2] == '1';
      }
    }
  }
}
