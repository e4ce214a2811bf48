/**
 * Character classes and string helpers that the mapper borrows from Foundation and ICU:
 * trimming with the whitespace-and-newline set, the regular-expression classes `\s` and
 * `\w`, the line terminators that `.` does not cross, case folding, and the decimal text
 * that `String(value)` gives an integer.
 */
module Text {

  /** Foundation's whitespaceAndNewlineCharacterSet: U+0009 to U+000D, U+0085 and general category Z. */
  predicate IsTrimSpace(c: char) {
    ('\t' <= c <= '\r') || c == ' ' || c == '\U{85}' || c == '\U{A0}' || c == '\U{1680}'
    || ('\U{2000}' <= c <= '\U{200A}') || c == '\U{2028}' || c == '\U{2029}'
    || c == '\U{202F}' || c == '\U{205F}' || c == '\U{3000}'
  }

  /** ICU's `\s`: tab, line feed, form feed, carriage return and general category Z. */
  predicate IsRegexSpace(c: char) {
    c == '\t' || c == '\n' || c == '\U{C}' || c == '\r' || c == ' ' || c == '\U{A0}'
    || c == '\U{1680}' || ('\U{2000}' <= c <= '\U{200A}') || c == '\U{2028}' || c == '\U{2029}'
    || c == '\U{202F}' || c == '\U{205F}' || c == '\U{3000}'
  }

  /** The characters ICU's `.` does not match. */
  predicate IsLineTerminator(c: char) {
    ('\n' <= c <= '\r') || c == '\U{85}' || c == '\U{2028}' || c == '\U{2029}'
  }

  /** The ASCII part of ICU's `\w`. */
  predicate IsWordChar(c: char) {
    ('a' <= c <= 'z') || ('A' <= c <= 'Z') || ('0' <= c <= '9') || c == '_'
  }

  function Lower(c: char): (d: char)
    ensures IsWordChar(c) <==> IsWordChar(d)
    ensures d == '{' <==> c == '{'
    ensures d == '}' <==> c == '}'
  {
    if 'A' <= c <= 'Z' then (c as int + 32) as char else c
  }

  /** The case-insensitive comparisons of the source compare the results of this function. */
  function LowerAll(s: string): (r: string)
    ensures |r| == |s|
  {
    seq(|s|, i requires 0 <= i < |s| => Lower(s[i]))
  }

  predicate StartsWithIgnoringCase(s: string, prefix: string) {
    |prefix| <= |s| && LowerAll(s[..|prefix|]) == LowerAll(prefix)
  }

  /** Number of whitespace characters at the front of `s`. */
  function LeadingSpaces(s: string): (n: nat)
    ensures n <= |s|
    ensures forall k :: 0 <= k < n ==> IsTrimSpace(s[k])
    ensures n < |s| ==> !IsTrimSpace(s[n])
  {
    if s == [] || !IsTrimSpace(s[0]) then 0 else 1 + LeadingSpaces(s[1..])
  }

  /** Number of whitespace characters at the back of `s`. */
  function TrailingSpaces(s: string): (n: nat)
    ensures n <= |s|
    ensures forall k :: |s| - n <= k < |s| ==> IsTrimSpace(s[k])
    ensures n < |s| ==> !IsTrimSpace(s[|s| - 1 - n])
  {
    if s == [] || !IsTrimSpace(s[|s| - 1]) then 0 else 1 + TrailingSpaces(s[..|s| - 1])
  }

  /**
   * stringByTrimmingCharactersInSet(whitespaceAndNewlineCharacterSet): `s` without the
   * whitespace at its front and at its back.
   */
  function Trim(s: string): (r: string)
    ensures |r| <= |s|
    ensures r != [] ==> !IsTrimSpace(r[0]) && !IsTrimSpace(r[|r| - 1])
  {
    var a := LeadingSpaces(s);
    if a == |s| then []
    else
      var b := TrailingSpaces(s);
      assert !IsTrimSpace(s[a]);
      s[a..|s| - b]
  }

  /** Trimming keeps an infix of the text and cuts off only whitespace on either side. */
  lemma TrimCutsOnlyOuterSpace(s: string)
    ensures exists i, j :: 0 <= i <= j <= |s| && Trim(s) == s[i..j]
                           && (forall k :: 0 <= k < i ==> IsTrimSpace(s[k]))
                           && (forall k :: j <= k < |s| ==> IsTrimSpace(s[k]))
  {
    var a := LeadingSpaces(s);
    if a == |s| {
      assert Trim(s) == s[a..a];
    } else {
      var b := TrailingSpaces(s);
      assert !IsTrimSpace(s[a]);
      assert Trim(s) == s[a..|s| - b];
    }
  }

  /** A text with no whitespace at either end is its own trimming, so trimming twice changes nothing. */
  lemma TrimKeepsTrimmed(s: string)
    requires s != [] ==> !IsTrimSpace(s[0]) && !IsTrimSpace(s[|s| - 1])
    ensures Trim(s) == s
    ensures Trim(Trim(s)) == Trim(s)
  {
    if s != [] {
      assert LeadingSpaces(s) == 0 && TrailingSpaces(s) == 0;
      assert s[0..|s|] == s;
    }
  }

  function DigitChar(d: nat): (c: char)
    requires d < 10
    ensures '0' <= c <= '9'
  {
    ('0' as int + d) as char
  }

  /** The decimal digits of `n`, most significant first, without leading zeros. */
  function DecimalDigits(n: nat): (r: string)
    ensures |r| > 0
    ensures forall i :: 0 <= i < |r| ==> '0' <= r[i] <= '9'
    ensures r[0] == '0' ==> n == 0
  {
    if n < 10 then [DigitChar(n)] else DecimalDigits(n / 10) + [DigitChar(n % 10)]
  }

  /** The number a string of decimal digits denotes. */
  function DigitsValue(s: string): nat
    requires forall i :: 0 <= i < |s| ==> '0' <= s[i] <= '9'
  {
    if s == [] then 0 else DigitsValue(s[..|s| - 1]) * 10 + (s[|s| - 1] as int - '0' as int)
  }

  /** `String(n)` for an integer: an optional minus sign and the decimal digits. */
  function IntToString(n: int): string {
    if n < 0 then "-" + DecimalDigits(-n) else DecimalDigits(n)
  }

  /** Reads back the text IntToString produces. */
  function ParseInt(s: string): int
    requires s != [] && (s[0] == '-' ==> |s| > 1)
    requires forall i :: (if s[0] == '-' then 1 else 0) <= i < |s| ==> '0' <= s[i] <= '9'
  {
    if s[0] == '-' then -(DigitsValue(s[1..]) as int) else DigitsValue(s)
  }

  lemma {:induction false} DigitsRoundTrip(n: nat)
    ensures DigitsValue(DecimalDigits(n)) == n
  {
    if n >= 10 {
      var r := DecimalDigits(n);
      assert r[..|r| - 1] == DecimalDigits(n / 10);
      DigitsRoundTrip(n / 10);
    }
  }

  /** An integer is rendered as text that contains no quote and reads back as the same integer. */
  lemma IntToStringRoundTrip(n: int)
    ensures var r := IntToString(n);
            && r != [] && (r[0] == '-' ==> |r| > 1)
            && (forall i :: 0 <= i < |r| ==> r[i] == '-' || '0' <= r[i] <= '9')
            && (forall i :: 1 <= i < |r| ==> '0' <= r[i] <= '9')
            && ParseInt(r) == n
  {
    if n < 0 {
      NegativeRoundTrip(n);
    } else {
      DigitsRoundTrip(n);
    }
  }

  lemma NegativeRoundTrip(n: int)
    requires n < 0
    ensures var r := IntToString(n);
            && |r| > 1 && r[0] == '-' && r[1..] == DecimalDigits(-n)
            && ParseInt(r) == n
  {
    var d := DecimalDigits(-n);
    var r := IntToString(n);
    assert r[1..] == d;
    DigitsRoundTrip(-n);
  }
}
