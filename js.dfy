/** The JavaScript string and number built-ins that the parser calls, over ASCII text. */
module Js {
  import opened Options
  import opened Text

  /** `toUpperCase` on one character: ASCII lower-case letters are raised, everything else is kept. */
  function ToUpper(c: char): (u: char)
    ensures IsLower(c) ==> IsUpper(u) && u as int == c as int - 32
    ensures !IsLower(c) ==> u == c
  {
    if IsLower(c) then (c as int - 32) as char else c
  }

  /** `String.prototype.toUpperCase`. */
  function UpperCase(s: string): (r: string)
    ensures |r| == |s|
    ensures forall k :: 0 <= k < |s| ==> r[k] == ToUpper(s[k])
  {
    seq(|s|, k requires 0 <= k < |s| => ToUpper(s[k]))
  }

  /** The index of the first character that is not white space (`|s|` when there is none). */
  function TextStart(s: string): (a: nat)
    ensures a <= |s|
    ensures forall k :: 0 <= k < a ==> IsSpace(s[k])
    ensures a < |s| ==> !IsSpace(s[a])
  {
    if |s| > 0 && IsSpace(s[0]) then 1 + TextStart(s[1..]) else 0
  }

  /** One past the last character at or after `a` that is not white space (`a` when there is none). */
  function TextEnd(s: string, a: nat): (b: nat)
    requires a <= |s|
    ensures a <= b <= |s|
    ensures forall k :: b <= k < |s| ==> IsSpace(s[k])
    ensures b > a ==> !IsSpace(s[b - 1])
    decreases |s|
  {
    if |s| > a && IsSpace(s[|s| - 1]) then TextEnd(s[..|s| - 1], a) else |s|
  }

  /** `String.prototype.trim`: the part between the leading and the trailing white space. */
  function Trim(s: string): (r: string)
  {
    var a := TextStart(s);
    s[a..TextEnd(s, a)]
  }

  /** Trimming keeps one contiguous piece of the text, starting at its first character that is not
      white space, and cuts off only white space after it. */
  lemma TrimPiece(s: string)
    ensures var a, r := TextStart(s), Trim(s);
            && a + |r| <= |s|
            && (forall k :: 0 <= k < |r| ==> r[k] == s[a + k])
            && (forall k :: a + |r| <= k < |s| ==> IsSpace(s[k]))
  {
  }

  /** A string with no white space at either end. */
  predicate Trimmed(s: string)
  {
    s == [] || (!IsSpace(s[0]) && !IsSpace(s[|s| - 1]))
  }

  /** Trimming leaves a trimmed string. */
  lemma TrimIsTrimmed(s: string)
    ensures Trimmed(Trim(s))
  {
    var a := TextStart(s);
    var b := TextEnd(s, a);
    if a < b {
      assert Trim(s)[0] == s[a];
      assert Trim(s)[b - a - 1] == s[b - 1];
    }
  }

  /** Trimming a trimmed string changes nothing. */
  lemma TrimTrimmed(s: string)
    requires Trimmed(s)
    ensures Trim(s) == s
  {
    var a := TextStart(s);
    assert a == 0;
    var b := TextEnd(s, a);
    assert |s| > 0 ==> b == |s|;
  }

  /** A text without lower-case letters is its own upper case. */
  lemma UpperCaseNoLower(s: string)
    requires forall k :: 0 <= k < |s| ==> !IsLower(s[k])
    ensures UpperCase(s) == s
  {
  }

  /** Raising a raised string changes nothing. */
  lemma UpperCaseIdempotent(s: string)
    ensures UpperCase(UpperCase(s)) == UpperCase(s)
  {
  }

  /** Trimming keeps a text free of lower-case letters: it only cuts characters off. */
  lemma TrimNoLower(s: string)
    requires forall k :: 0 <= k < |s| ==> !IsLower(s[k])
    ensures forall k :: 0 <= k < |Trim(s)| ==> !IsLower(Trim(s)[k])
  {
    TrimPiece(s);
  }

  /** Trimming commutes with raising: white space is never a lower-case letter, and raising
      turns nothing into white space. */
  lemma UpperCaseOfTrim(s: string)
    ensures UpperCase(Trim(s)) == Trim(UpperCase(s))
  {
    var u := UpperCase(s);
    assert forall k :: 0 <= k < |s| ==> (IsSpace(u[k]) <==> IsSpace(s[k]));
    var a, a' := TextStart(s), TextStart(u);
    assert a == a';
    var b, b' := TextEnd(s, a), TextEnd(u, a);
    assert b == b';
    assert UpperCase(s[a..b]) == u[a..b];
  }

  /** The index of the first `c` in `s` (`|s|` when there is none). */
  function IndexOf(s: string, c: char): (k: nat)
    ensures k <= |s|
    ensures forall j :: 0 <= j < k ==> s[j] != c
    ensures k < |s| ==> s[k] == c
  {
    if |s| == 0 || s[0] == c then 0 else 1 + IndexOf(s[1..], c)
  }

  /** `s.replace(c, rep)` with a one-character pattern string: only the first occurrence is replaced. */
  function ReplaceFirst(s: string, c: char, rep: string): (r: string)
    ensures c !in s ==> r == s
    ensures c in s ==> |r| == |s| - 1 + |rep|
  {
    var k := IndexOf(s, c);
    if k == |s| then s else s[..k] + rep + s[k + 1..]
  }

  /** Only the first occurrence is replaced: text before it holds no `c`, text after it is kept as it is,
      later occurrences of `c` included. */
  lemma ReplaceFirstAt(a: string, c: char, b: string, rep: string)
    requires c !in a
    ensures ReplaceFirst(a + [c] + b, c, rep) == a + rep + b
  {
    var s := a + [c] + b;
    var k := IndexOf(s, c);
    assert s[|a|] == c;
    assert forall j :: 0 <= j < |a| ==> s[j] == a[j];
    assert k == |a|;
    assert s[..k] == a;
    assert s[k + 1..] == b;
  }

  /** The length of the run of digits that `s` starts with. */
  function LeadingDigits(s: string): (n: nat)
    ensures n <= |s| && AllDigits(s[..n])
    ensures n < |s| ==> !IsDigit(s[n])
  {
    if |s| > 0 && IsDigit(s[0]) then
      var m := LeadingDigits(s[1..]);
      assert s[..1 + m] == [s[0]] + s[1..][..m];
      1 + m
    else 0
  }

  /** `parseInt(s)` (no radix): leading white space, an optional sign, then the longest run of digits;
      `None` stands for NaN, the result when no digit follows the sign. */
  function ParseInt(s: string): (r: Option<int>)
    ensures r.Some? <==> StartsNumber(s[TextStart(s)..])
    ensures r.Some? && r.value < 0 ==> s[TextStart(s)] == '-'
  {
    ParseSigned(s[TextStart(s)..])
  }

  /** `t` starts with a digit, possibly after one sign character. */
  predicate StartsNumber(t: string)
  {
    var u := if |t| > 0 && (t[0] == '-' || t[0] == '+') then t[1..] else t;
    |u| > 0 && IsDigit(u[0])
  }

  /** An optional sign followed by a run of digits. */
  function ParseSigned(t: string): (r: Option<int>)
    ensures r.Some? <==> StartsNumber(t)
    ensures r.Some? && r.value < 0 ==> t[0] == '-'
  {
    if |t| > 0 && t[0] == '-' then
      match ParseDigitRun(t[1..])
      case Some(v) => Some(-v)
      case None => None
    else if |t| > 0 && t[0] == '+' then ParseDigitRun(t[1..])
    else ParseDigitRun(t)
  }

  /** The value of the run of digits that `u` starts with; NaN when it starts with none. */
  function ParseDigitRun(u: string): (r: Option<int>)
    ensures r.Some? <==> |u| > 0 && IsDigit(u[0])
    ensures r.Some? ==> r.value >= 0
  {
    var n := LeadingDigits(u);
    if n == 0 then None else Some(DigitsValue(u[..n]))
  }

  /** `parseFloat(s)` on the strings the parser gives it, which never hold '.', 'e' or 'E': there it reads
      the same leading signed digit run as `parseInt` and yields an integer. */
  function ParseFloat(s: string): (r: Option<int>)
    ensures r.Some? <==> StartsNumber(s[TextStart(s)..])
  {
    ParseInt(s)
  }

  /** `parseInt` reads a run of digits up to the first character that is not a digit. */
  lemma ParseIntDigits(d: string, tail: string)
    requires |d| > 0 && AllDigits(d)
    requires tail == [] || !IsDigit(tail[0])
    ensures ParseInt(d + tail) == Some(DigitsValue(d))
  {
    DigitRun(d, tail);
    var t := d + tail;
    assert t[0] == d[0];
    NoLeadingSpace(t);
  }

  /** ... and a minus sign in front of a run of digits negates it. */
  lemma ParseIntNegative(d: string)
    requires |d| > 0 && AllDigits(d)
    ensures ParseInt("-" + d).Some? && ParseInt("-" + d).value + DigitsValue(d) == 0
  {
    var v: int := DigitsValue(d);
    assert ParseDigitRun(d) == Some(v) by {
      DigitRun(d, "");
      assert d + "" == d;
    }
    MinusSign(d, v);
    NoLeadingSpace("-" + d);
  }

  /** Helper: a leading minus sign negates the digit run after it. */
  lemma MinusSign(t: string, v: int)
    requires ParseDigitRun(t) == Some(v)
    ensures ParseSigned("-" + t) == Some(-v)
  {
    var m := "-" + t;
    assert m[0] == '-';
    assert m[1..] == t;
  }

  /** Helper: without leading white space `parseInt` goes straight to the sign. */
  lemma NoLeadingSpace(t: string)
    requires |t| > 0 && !IsSpace(t[0])
    ensures ParseInt(t) == ParseSigned(t)
  {
    assert t[TextStart(t)..] == t;
  }

  /** Helper for ParseIntDigits: the leading run of `d + tail` is `d`. */
  lemma DigitRun(d: string, tail: string)
    requires AllDigits(d)
    requires tail == [] || !IsDigit(tail[0])
    ensures LeadingDigits(d + tail) == |d| && (d + tail)[..|d|] == d
  {
    if |d| > 0 {
      DigitRun(d[1..], tail);
      assert (d + tail)[1..] == d[1..] + tail;
    } else {
      assert d + tail == tail;
    }
  }

  /** `Array.prototype.join(sep)`. */
  function Join(parts: seq<string>, sep: string): (r: string)
    ensures |parts| == 1 ==> r == parts[0]
    ensures |parts| > 0 && |parts[0]| > 0 ==> |r| > 0 && r[0] == parts[0][0]
  {
    if |parts| == 0 then ""
    else if |parts| == 1 then parts[0]
    else parts[0] + sep + Join(parts[1..], sep)
  }

  /** Joining one more part appends the separator and that part. */
  lemma {:induction false} JoinSnoc(parts: seq<string>, p: string, sep: string)
    requires |parts| > 0
    ensures Join(parts + [p], sep) == Join(parts, sep) + sep + p
  {
    if |parts| == 1 {
      assert (parts + [p])[1..] == [p];
    } else {
      assert (parts + [p])[1..] == parts[1..] + [p];
      JoinSnoc(parts[1..], p, sep);
    }
  }

  /** The first index at or after `i` where `t` occurs in `s`, if any (`indexOf(t, i)`). */
  function Find(s: string, t: string, i: nat): (r: Option<nat>)
    requires i <= |s|
    ensures r.Some? ==> i <= r.value <= |s| && PrefixAt(s, r.value, t)
    ensures r.Some? ==> forall j :: i <= j < r.value ==> !PrefixAt(s, j, t)
    ensures r.None? ==> forall j :: i <= j <= |s| ==> !PrefixAt(s, j, t)
    decreases |s| - i
  {
    if PrefixAt(s, i, t) then Some(i)
    else if i == |s| then None
    else Find(s, t, i + 1)
  }

  /** `String.prototype.split(sep)` for a non-empty separator: the pieces between its occurrences. */
  function Split(s: string, sep: string): (parts: seq<string>)
    requires |sep| > 0
    ensures |parts| > 0
    decreases |s|
  {
    match Find(s, sep, 0)
    case None => [s]
    case Some(k) => [s[..k]] + Split(s[k + |sep|..], sep)
  }

  /** Helper: a separator whose first character does not occur in `a` is not found in `a`. */
  lemma NotFound(a: string, sep: string)
    requires |sep| > 0 && sep[0] !in a
    ensures Find(a, sep, 0) == None
  {
    forall j | 0 <= j <= |a| ensures !PrefixAt(a, j, sep) {
      if j < |a| {
        assert a[j] != sep[0];
        if j + |sep| <= |a| {
          assert a[j..j + |sep|][0] == a[j];
        }
      }
    }
  }

  /** Helper: ... so in `a + sep + b` it is found right after `a`. */
  lemma FoundAfter(a: string, sep: string, b: string)
    requires |sep| > 0 && sep[0] !in a
    ensures Find(a + sep + b, sep, 0) == Some(|a|)
  {
    var s := a + sep + b;
    forall j | 0 <= j < |a| ensures !PrefixAt(s, j, sep) {
      assert s[j] == a[j];
      if j + |sep| <= |s| {
        assert s[j..j + |sep|][0] == s[j];
      }
    }
    assert s[|a|..|a| + |sep|] == sep;
    assert PrefixAt(s, |a|, sep);
  }

  /** Splitting a joined list at its separator gives the list back when no part holds the separator's
      first character. */
  lemma {:induction false} SplitJoin(parts: seq<string>, sep: string)
    requires |sep| > 0 && |parts| > 0
    requires forall k :: 0 <= k < |parts| ==> sep[0] !in parts[k]
    ensures Split(Join(parts, sep), sep) == parts
  {
    if |parts| == 1 {
      NotFound(parts[0], sep);
    } else {
      var rest := Join(parts[1..], sep);
      var s := parts[0] + sep + rest;
      assert Join(parts, sep) == s;
      FoundAfter(parts[0], sep, rest);
      assert s[..|parts[0]|] == parts[0];
      assert s[|parts[0]| + |sep|..] == rest;
      assert Split(s, sep) == [parts[0]] + Split(rest, sep);
      SplitJoin(parts[1..], sep);
      assert parts == [parts[0]] + parts[1..];
    }
  }
}
