/** Characters, digit runs and substrings, as the METAR patterns see them (ASCII only). */
module Text {

  /** `\d` in a JavaScript regular expression: an ASCII decimal digit. */
  predicate IsDigit(c: char) { '0' <= c <= '9' }

  /** `[A-Z]`. */
  predicate IsUpper(c: char) { 'A' <= c <= 'Z' }

  predicate IsLower(c: char) { 'a' <= c <= 'z' }

  /** The ASCII characters that `String.prototype.trim` removes. */
  predicate IsSpace(c: char)
  {
    c == ' ' || c == '\t' || c == '\n' || c == '\r' || c == '\U{000B}' || c == '\U{000C}'
  }

  predicate AllDigits(t: string)
  {
    forall k :: 0 <= k < |t| ==> IsDigit(t[k])
  }

  function DigitValue(c: char): (d: nat)
    requires IsDigit(c)
    ensures d <= 9
  {
    c as int - '0' as int
  }

  function Pow10(n: nat): (p: nat)
    ensures p >= 1
  {
    if n == 0 then 1 else 10 * Pow10(n - 1)
  }

  /** The decimal value of a digit string, most significant digit first. */
  function DigitsValue(t: string): (n: nat)
    requires AllDigits(t)
    ensures n < Pow10(|t|)
    decreases |t|
  {
    if |t| == 0 then 0
    else
      var init := t[..|t| - 1];
      assert forall k :: 0 <= k < |init| ==> init[k] == t[k];
      10 * DigitsValue(init) + DigitValue(t[|t| - 1])
  }

  /** `t` occurs in `s` starting at index `i`. */
  predicate PrefixAt(s: string, i: nat, t: string)
  {
    i + |t| <= |s| && s[i..i + |t|] == t
  }

  /** `n` digits occur in `s` starting at index `i` (`\d{n}`). */
  predicate DigitsAt(s: string, i: nat, n: nat)
  {
    i + n <= |s| && forall k :: i <= k < i + n ==> IsDigit(s[k])
  }

  /** The digits found by DigitsAt, as a string. */
  lemma DigitsAtSlice(s: string, i: nat, n: nat)
    requires DigitsAt(s, i, n)
    ensures AllDigits(s[i..i + n]) && PrefixAt(s, i, s[i..i + n])
  {
    var t := s[i..i + n];
    assert forall k :: 0 <= k < n ==> t[k] == s[i + k];
  }

  /** An occurrence of a digit string is a run of digits. */
  lemma PrefixAtDigits(s: string, i: nat, t: string)
    requires PrefixAt(s, i, t) && AllDigits(t)
    ensures DigitsAt(s, i, |t|) && s[i..i + |t|] == t
  {
    PrefixAtChars(s, i, t);
    assert forall k :: i <= k < i + |t| ==> s[k] == t[k - i];
  }

  /** An occurrence of `a + b` is an occurrence of `a` followed by one of `b`. */
  lemma PrefixAtConcat(s: string, i: nat, a: string, b: string)
    ensures PrefixAt(s, i, a + b) <==> PrefixAt(s, i, a) && PrefixAt(s, i + |a|, b)
  {
    if PrefixAt(s, i, a) && PrefixAt(s, i + |a|, b) {
      assert s[i..i + |a + b|] == s[i..i + |a|] + s[i + |a|..i + |a| + |b|];
    }
    if PrefixAt(s, i, a + b) {
      assert s[i..i + |a|] == (a + b)[..|a|];
      assert s[i + |a|..i + |a| + |b|] == (a + b)[|a|..];
    }
  }

  /** Occurrence of three and of four consecutive pieces. */
  lemma PrefixAtConcat3(s: string, i: nat, a: string, b: string, c: string)
    ensures PrefixAt(s, i, a + b + c) <==>
            PrefixAt(s, i, a) && PrefixAt(s, i + |a|, b) && PrefixAt(s, i + |a| + |b|, c)
  {
    PrefixAtConcat(s, i, a + b, c);
    PrefixAtConcat(s, i, a, b);
  }

  lemma PrefixAtConcat4(s: string, i: nat, a: string, b: string, c: string, d: string)
    ensures PrefixAt(s, i, a + b + c + d) <==>
            PrefixAt(s, i, a) && PrefixAt(s, i + |a|, b) && PrefixAt(s, i + |a| + |b|, c)
            && PrefixAt(s, i + |a| + |b| + |c|, d)
  {
    PrefixAtConcat(s, i, a + b + c, d);
    PrefixAtConcat3(s, i, a, b, c);
  }

  /** Reading the characters of an occurrence. */
  lemma PrefixAtChars(s: string, i: nat, t: string)
    requires PrefixAt(s, i, t)
    ensures forall k :: 0 <= k < |t| ==> s[i + k] == t[k]
  {
    forall k | 0 <= k < |t| ensures s[i + k] == t[k] {
      assert s[i..i + |t|][k] == s[i + k];
    }
  }
}
