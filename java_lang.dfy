/**
 * The few `java.lang.String` operations the messaging core relies on:
 * `toLowerCase` as used to compare against lower-case ASCII keywords,
 * `equalsIgnoreCase` against such a keyword, `split(",")`, and
 * `Integer.toString` of a port number.
 */
module JavaLang {

  const KELVIN_SIGN: char := '\U{212A}'

  /**
   * One character of `String.toLowerCase`, restricted to what matters
   * when the result is compared with an all-lower-case ASCII word: 'A'..'Z'
   * and the Kelvin sign are the only characters whose lower case is a
   * single ASCII letter different from themselves; every other character
   * is left as is.
   */
  function LowerChar(c: char): (r: char)
    ensures 'a' <= r <= 'z' && r != c ==> ('A' <= c <= 'Z' || c == KELVIN_SIGN)
    ensures 'A' <= c <= 'Z' ==> r as int == c as int + 32
  {
    if 'A' <= c <= 'Z' then (c as int + 32) as char
    else if c == KELVIN_SIGN then 'k'
    else c
  }

  /** `String.toLowerCase()` in a non-Turkish locale, as seen by keyword comparisons. */
  function Lower(s: string): (r: string)
    ensures |r| == |s|
    ensures forall i :: 0 <= i < |s| ==> r[i] == LowerChar(s[i])
  {
    if s == [] then [] else [LowerChar(s[0])] + Lower(s[1..])
  }

  /** A word made only of the characters 'a'..'z'. */
  predicate IsLowerAsciiWord(w: string)
  {
    forall i :: 0 <= i < |w| ==> 'a' <= w[i] <= 'z'
  }

  /** Lower-casing leaves a lower-case ASCII word unchanged. */
  lemma {:induction false} LowerOfLowerWord(w: string)
    requires IsLowerAsciiWord(w)
    ensures Lower(w) == w
  {
    if w != [] {
      LowerOfLowerWord(w[1..]);
    }
  }

  /**
   * `s.equalsIgnoreCase(kw)` for a lower-case ASCII keyword without the
   * letters i, k and s (such as "accept" and "connect"): for those keywords
   * the only characters that match a keyword letter ignoring case are the
   * letter itself and its ASCII upper case.
   */
  predicate EqualsIgnoreCase(s: string, kw: string)
  {
    Lower(s) == kw
  }

  /** Matching ignoring case is exactly "same length, each character equal or its ASCII upper case". */
  lemma EqualsIgnoreCaseSpec(s: string, kw: string)
    requires IsLowerAsciiWord(kw)
    requires forall i :: 0 <= i < |kw| ==> kw[i] != 'k'
    ensures EqualsIgnoreCase(s, kw) <==>
            |s| == |kw| &&
            forall i :: 0 <= i < |s| ==> s[i] == kw[i] || s[i] as int == kw[i] as int - 32
  {
    if EqualsIgnoreCase(s, kw) {
      forall i | 0 <= i < |s|
        ensures s[i] == kw[i] || s[i] as int == kw[i] as int - 32
      {
        assert Lower(s)[i] == kw[i];
      }
    }
    if |s| == |kw| && forall i :: 0 <= i < |s| ==> s[i] == kw[i] || s[i] as int == kw[i] as int - 32 {
      assert forall i :: 0 <= i < |s| ==> Lower(s)[i] == kw[i];
    }
  }

  /** The pieces of `s` between commas, empty pieces included (one more piece than commas). */
  function Pieces(s: string): (r: seq<string>)
    ensures |r| >= 1
    ensures forall i :: 0 <= i < |r| ==> ',' !in r[i]
    decreases |s|
  {
    if s == [] then [[]]
    else
      var rest := Pieces(s[1..]);
      if s[0] == ',' then [[]] + rest
      else [[s[0]] + rest[0]] + rest[1..]
  }

  /** The pieces joined back with commas. */
  function Join(ps: seq<string>): string
    requires |ps| >= 1
  {
    if |ps| == 1 then ps[0] else ps[0] + [','] + Join(ps[1..])
  }

  /** Pieces and Join are inverse: splitting loses nothing. */
  lemma {:induction false} JoinPieces(s: string)
    ensures Join(Pieces(s)) == s
    decreases |s|
  {
    if s != [] {
      JoinPieces(s[1..]);
      var rest := Pieces(s[1..]);
      if s[0] == ',' {
        assert Pieces(s) == [[]] + rest;
        assert Join(Pieces(s)) == [] + [','] + Join(rest);
      } else {
        assert Pieces(s) == [[s[0]] + rest[0]] + rest[1..];
        if |rest| == 1 {
          assert Join(Pieces(s)) == [s[0]] + rest[0];
        } else {
          assert Join(rest) == rest[0] + [','] + Join(rest[1..]);
          assert Join(Pieces(s)) == [s[0]] + rest[0] + [','] + Join(rest[1..]);
        }
      }
    }
  }

  /** Drops the empty strings at the end of a list of pieces. */
  function DropTrailingEmpty(ps: seq<string>): (r: seq<string>)
    ensures |r| <= |ps| && r == ps[..|r|]
    ensures |r| > 0 ==> r[|r| - 1] != []
    ensures forall i :: |r| <= i < |ps| ==> ps[i] == []
  {
    if ps == [] then []
    else if ps[|ps| - 1] == [] then DropTrailingEmpty(ps[..|ps| - 1])
    else ps
  }

  /**
   * `s.split(",")`: pieces between commas with trailing empty pieces
   * removed; a string without any comma yields itself as the only piece,
   * so `"".split(",")` is `[""]` while `",".split(",")` is empty.
   */
  function SplitComma(s: string): (r: seq<string>)
    ensures ',' !in s ==> r == [s]
    ensures forall i :: 0 <= i < |r| ==> ',' !in r[i]
  {
    if ',' !in s then [s] else DropTrailingEmpty(Pieces(s))
  }

  /** The decimal digit for 0..9. */
  function Digit(d: nat): (c: char)
    requires d < 10
    ensures '0' <= c <= '9'
  {
    ['0', '1', '2', '3', '4', '5', '6', '7', '8', '9'][d]
  }

  /** `Integer.toString(n)` for a non-negative `n`, such as a port. */
  function Decimal(n: nat): (r: string)
    ensures |r| >= 1
    ensures forall i :: 0 <= i < |r| ==> '0' <= r[i] <= '9'
    decreases n
  {
    if n < 10 then [Digit(n)] else Decimal(n / 10) + [Digit(n % 10)]
  }

  /** The value of a decimal digit character. */
  function DigitValue(c: char): (d: nat)
    requires '0' <= c <= '9'
    ensures d < 10
  {
    c as int - '0' as int
  }

  /** `Integer.parseInt(s)` for a non-empty string of decimal digits. */
  function ParseDecimal(s: string): (n: nat)
    requires |s| >= 1 && forall i :: 0 <= i < |s| ==> '0' <= s[i] <= '9'
    decreases |s|
  {
    if |s| == 1 then DigitValue(s[0])
    else 10 * ParseDecimal(s[..|s| - 1]) + DigitValue(s[|s| - 1])
  }

  lemma DigitRoundTrip(d: nat)
    requires d < 10
    ensures DigitValue(Digit(d)) == d
  {
  }

  /** The digits `Decimal` writes read back as `n`. */
  lemma {:induction false} DecimalRoundTrip(n: nat)
    ensures ParseDecimal(Decimal(n)) == n
    decreases n
  {
    if n < 10 {
      DigitRoundTrip(n);
    } else {
      var r := Decimal(n);
      assert r[..|r| - 1] == Decimal(n / 10);
      DecimalRoundTrip(n / 10);
      DigitRoundTrip(n % 10);
    }
  }

  /** Different numbers have different decimal forms. */
  lemma DecimalInjective(m: nat, n: nat)
    ensures Decimal(m) == Decimal(n) ==> m == n
  {
    DecimalRoundTrip(m);
    DecimalRoundTrip(n);
  }
}
