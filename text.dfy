/** The few JavaScript string operations the screens rely on. */
module Text {
  import opened Wrappers

  /** JavaScript white space: what `\s` matches and what `String.prototype.trim` strips
      (the ECMAScript WhiteSpace and LineTerminator characters). */
  predicate IsWhitespace(c: char) {
    c == ' ' || c == '\t' || c == '\n' || c == '\r' || c == '\U{000B}' || c == '\U{000C}'
    || c == '\U{00A0}' || c == '\U{1680}' || ('\U{2000}' <= c <= '\U{200A}')
    || c == '\U{2028}' || c == '\U{2029}' || c == '\U{202F}' || c == '\U{205F}'
    || c == '\U{3000}' || c == '\U{FEFF}'
  }

  predicate AllWhitespace(s: string) {
    forall i :: 0 <= i < |s| ==> IsWhitespace(s[i])
  }

  /** JavaScript truthiness of a nullable string: neither null/undefined nor "". */
  predicate IsTruthy(v: Option<string>) {
    v.Some? && v.value != ""
  }

  /** `sub` occurs in `s` starting at index `i`. */
  ghost predicate OccursAt(s: string, sub: string, i: int) {
    0 <= i && i + |sub| <= |s| && s[i..i + |sub|] == sub
  }

  /** `s.includes(sub)`. */
  function Contains(s: string, sub: string): (r: bool)
    ensures r <==> exists i :: OccursAt(s, sub, i)
    decreases |s|
  {
    if |s| < |sub| then false
    else if s[..|sub|] == sub then (assert OccursAt(s, sub, 0); true)
    else
      var r := Contains(s[1..], sub);
      assert forall i :: OccursAt(s[1..], sub, i) <==> OccursAt(s, sub, i + 1) by {
        forall i ensures OccursAt(s[1..], sub, i) <==> OccursAt(s, sub, i + 1) {
          if 0 <= i && i + |sub| <= |s| - 1 {
            assert s[1..][i..i + |sub|] == s[i + 1..i + 1 + |sub|];
          }
        }
      }
      assert !OccursAt(s, sub, 0);
      assert forall i :: OccursAt(s, sub, i) ==> i == 0 || OccursAt(s[1..], sub, i - 1);
      r
  }

  /** A string that lacks one of the characters of `sub` cannot contain `sub`. */
  lemma MissingCharNotContained(s: string, sub: string, c: char)
    requires c in sub && c !in s
    ensures !Contains(s, sub)
  {
    forall i ensures !OccursAt(s, sub, i) {
      if 0 <= i && i + |sub| <= |s| {
        assert c !in s[i..i + |sub|];
      }
    }
  }

  /** A string built around `sub` contains it. */
  lemma ContainedInMiddle(a: string, sub: string, b: string)
    ensures Contains(a + sub + b, sub)
  {
    var s := a + sub + b;
    assert s[|a|..|a| + |sub|] == sub;
    assert OccursAt(s, sub, |a|);
  }

  /** A string containing `sub` still contains it with anything put around it. */
  lemma ContainedInPart(a: string, m: string, b: string, sub: string)
    requires Contains(a, sub) || Contains(m, sub) || Contains(b, sub)
    ensures Contains(a + m + b, sub)
  {
    var s := a + m + b;
    if Contains(a, sub) {
      var i :| OccursAt(a, sub, i);
      assert s[i..i + |sub|] == a[i..i + |sub|];
      assert OccursAt(s, sub, i);
    } else if Contains(m, sub) {
      var i :| OccursAt(m, sub, i);
      var j := i + |a|;
      assert s[j..j + |sub|] == m[i..i + |sub|];
      assert OccursAt(s, sub, j);
    } else {
      var i :| OccursAt(b, sub, i);
      var j := i + |a| + |m|;
      assert s[j..j + |sub|] == b[i..i + |sub|];
      assert OccursAt(s, sub, j);
    }
  }

  /** A slice of `x + y` inside `x` is the same slice of `x`. */
  lemma SliceOfJoinLeft(x: string, y: string, i: int, j: int)
    requires 0 <= i <= j <= |x|
    ensures (x + y)[i..j] == x[i..j]
  {
    forall t | 0 <= t < j - i ensures (x + y)[i..j][t] == x[i..j][t] {
      assert (x + y)[i + t] == x[i + t];
    }
  }

  /** A slice of `x + y` inside `y` is the shifted slice of `y`. */
  lemma SliceOfJoinRight(x: string, y: string, i: int, j: int)
    requires |x| <= i <= j <= |x| + |y|
    ensures (x + y)[i..j] == y[i - |x|..j - |x|]
  {
    forall t | 0 <= t < j - i ensures (x + y)[i..j][t] == y[i - |x|..j - |x|][t] {
      assert (x + y)[i + t] == y[i - |x| + t];
    }
  }

  /** An occurrence of `sub` in `x + y` that is in neither part would cover the first
      character of `y`; when that character is foreign to `sub` there is none. */
  lemma NotContainedJoinFront(x: string, y: string, sub: string)
    requires !Contains(x, sub) && !Contains(y, sub)
    requires |y| > 0 && y[0] !in sub
    ensures !Contains(x + y, sub)
  {
    var s := x + y;
    var n := |sub|;
    forall i | 0 <= i && i + n <= |s| ensures !OccursAt(s, sub, i) {
      if i + n <= |x| {
        SliceOfJoinLeft(x, y, i, i + n);
        assert !OccursAt(x, sub, i);
      } else if i < |x| {
        assert s[i..i + n][|x| - i] == y[0];
      } else {
        SliceOfJoinRight(x, y, i, i + n);
        assert !OccursAt(y, sub, i - |x|);
      }
    }
  }

  /** The same with the last character of `x` foreign to `sub`. */
  lemma NotContainedJoinBack(x: string, y: string, sub: string)
    requires !Contains(x, sub) && !Contains(y, sub)
    requires |x| > 0 && x[|x| - 1] !in sub
    ensures !Contains(x + y, sub)
  {
    var s := x + y;
    var n := |sub|;
    forall i | 0 <= i && i + n <= |s| ensures !OccursAt(s, sub, i) {
      if i + n <= |x| {
        SliceOfJoinLeft(x, y, i, i + n);
        assert !OccursAt(x, sub, i);
      } else if i < |x| {
        assert s[i..i + n][|x| - 1 - i] == x[|x| - 1];
      } else {
        SliceOfJoinRight(x, y, i, i + n);
        assert !OccursAt(y, sub, i - |x|);
      }
    }
  }

  /** No occurrence of `sub` can straddle a middle part whose first and last characters
      are foreign to `sub`, so `a + m + b` contains `sub` only if one of the parts does. */
  lemma NotContainedAcross(a: string, m: string, b: string, sub: string)
    requires !Contains(a, sub) && !Contains(m, sub) && !Contains(b, sub)
    requires |m| > 0 && m[0] !in sub && m[|m| - 1] !in sub
    ensures !Contains(a + m + b, sub)
  {
    NotContainedJoinFront(a, m, sub);
    assert (a + m)[|a + m| - 1] == m[|m| - 1];
    NotContainedJoinBack(a + m, b, sub);
  }

  /** `trimStart`: drops leading white space; the result is a suffix of `s`. */
  function TrimStart(s: string): (r: string)
    ensures |r| <= |s| && r == s[|s| - |r|..]
    ensures r != [] ==> !IsWhitespace(r[0])
    ensures AllWhitespace(s[..|s| - |r|])
    decreases |s|
  {
    if |s| > 0 && IsWhitespace(s[0]) then
      var r := TrimStart(s[1..]);
      assert s[..|s| - |r|] == [s[0]] + s[1..][..|s| - 1 - |r|];
      r
    else s
  }

  /** `trimEnd`: drops trailing white space; the result is a prefix of `s`. */
  function TrimEnd(s: string): (r: string)
    ensures |r| <= |s| && r == s[..|r|]
    ensures r != [] ==> !IsWhitespace(r[|r| - 1])
    ensures AllWhitespace(s[|r|..])
    decreases |s|
  {
    if |s| > 0 && IsWhitespace(s[|s| - 1]) then
      var r := TrimEnd(s[..|s| - 1]);
      assert s[|r|..] == s[..|s| - 1][|r|..] + [s[|s| - 1]];
      r
    else s
  }

  /** `String.prototype.trim`. It is empty exactly when every character is white space. */
  function Trim(s: string): (r: string)
    ensures r == [] <==> AllWhitespace(s)
    ensures r != [] ==> !IsWhitespace(r[0]) && !IsWhitespace(r[|r| - 1])
  {
    var t := TrimStart(s);
    var r := TrimEnd(t);
    assert r == [] ==> AllWhitespace(s) by {
      if r == [] {
        assert t == t[|r|..];
        assert s == s[..|s| - |t|] + t;
      }
    }
    assert r != [] ==> r[0] == t[0];
    r
  }

  function DigitChar(d: nat): (c: char)
    requires d < 10
    ensures '0' <= c <= '9'
  {
    "0123456789"[d]
  }

  /** The decimal notation JavaScript gives a non-negative integer in a template string. */
  function DecimalDigits(n: nat): (r: string)
    ensures |r| >= 1 && forall i :: 0 <= i < |r| ==> '0' <= r[i] <= '9'
    decreases n
  {
    if n < 10 then [DigitChar(n)] else DecimalDigits(n / 10) + [DigitChar(n % 10)]
  }

  /** The value of a string of decimal digits (the inverse of DecimalDigits). */
  function DigitsValue(s: string): nat
    requires forall i :: 0 <= i < |s| ==> '0' <= s[i] <= '9'
  {
    if s == [] then 0 else DigitsValue(s[..|s| - 1]) * 10 + (s[|s| - 1] as int - '0' as int)
  }

  lemma {:induction false} DigitsValueOfDecimalDigits(n: nat)
    ensures DigitsValue(DecimalDigits(n)) == n
    decreases n
  {
    if n >= 10 {
      var r := DecimalDigits(n);
      assert r[..|r| - 1] == DecimalDigits(n / 10);
      DigitsValueOfDecimalDigits(n / 10);
    }
  }

  /** The first index of `c` in `s`, if any (`s.indexOf(c)` with -1 as None). */
  function IndexOf(s: string, c: char): (r: Option<nat>)
    ensures r.None? <==> c !in s
    ensures r.Some? ==> r.value < |s| && s[r.value] == c && c !in s[..r.value]
    decreases |s|
  {
    if s == [] then None
    else if s[0] == c then Some(0)
    else
      match IndexOf(s[1..], c)
      case None => None
      case Some(k) =>
        assert s[..k + 1] == [s[0]] + s[1..][..k];
        Some(k + 1)
  }
}
