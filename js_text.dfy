/**
 * The string operations index.js applies to customer identifiers: the digit filter
 * `replace(/[^\d]/g, '')`, `String.prototype.trim` and `String.prototype.toLowerCase`.
 */
module JsText {

  // ---------------------------------------------------------------- digits

  /** The regular-expression class `\d`, which in JavaScript is ASCII only. */
  predicate IsDigit(c: char) {
    '0' <= c <= '9'
  }

  predicate IsDigits(s: string) {
    forall i :: 0 <= i < |s| ==> IsDigit(s[i])
  }

  predicate HasDigit(s: string) {
    exists i :: 0 <= i < |s| && IsDigit(s[i])
  }

  /** `s.replace(/[^\d]/g, '')`: every character outside `\d` is removed. */
  function KeepDigits(s: string): (r: string)
    ensures IsDigits(r)
    ensures |r| <= |s|
    decreases |s|
  {
    if s == [] then [] else (if IsDigit(s[0]) then [s[0]] else []) + KeepDigits(s[1..])
  }

  /** The filter works piecewise: filtering a concatenation concatenates the filtered parts. */
  lemma {:induction false} KeepDigitsAppend(s: string, t: string)
    ensures KeepDigits(s + t) == KeepDigits(s) + KeepDigits(t)
    decreases |s|
  {
    if s == [] {
      assert s + t == t;
    } else {
      assert (s + t)[1..] == s[1..] + t;
      KeepDigitsAppend(s[1..], t);
    }
  }

  /** On one character the filter keeps exactly the digits. */
  lemma KeepDigitsSingle(c: char)
    ensures KeepDigits([c]) == if IsDigit(c) then [c] else []
  {
    assert [c][1..] == [];
  }

  /** Every digit survives as often as it occurs; no other character survives. */
  lemma {:induction false} KeepDigitsCount(s: string, c: char)
    ensures multiset(KeepDigits(s))[c] == if IsDigit(c) then multiset(s)[c] else 0
    decreases |s|
  {
    if s != [] {
      KeepDigitsCount(s[1..], c);
      assert s == [s[0]] + s[1..];
    }
  }

  /** The filter leaves a string unchanged exactly when it consists of digits only. */
  lemma {:induction false} KeepDigitsFixed(s: string)
    ensures KeepDigits(s) == s <==> IsDigits(s)
    decreases |s|
  {
    if s != [] && IsDigits(s) {
      assert IsDigits(s[1..]) by {
        forall i | 0 <= i < |s[1..]| ensures IsDigit(s[1..][i]) { assert s[1..][i] == s[i + 1]; }
      }
      KeepDigitsFixed(s[1..]);
    }
  }

  /** Filtering twice is filtering once. */
  lemma KeepDigitsIdempotent(s: string)
    ensures KeepDigits(KeepDigits(s)) == KeepDigits(s)
  {
    KeepDigitsFixed(KeepDigits(s));
  }

  /** The filter yields the empty string exactly when the input holds no digit. */
  lemma {:induction false} KeepDigitsEmpty(s: string)
    ensures KeepDigits(s) == [] <==> !HasDigit(s)
    decreases |s|
  {
    if s != [] {
      KeepDigitsEmpty(s[1..]);
      if HasDigit(s[1..]) {
        var i :| 0 <= i < |s[1..]| && IsDigit(s[1..][i]);
        assert IsDigit(s[i + 1]);
      }
      if HasDigit(s) && !IsDigit(s[0]) {
        var i :| 0 <= i < |s| && IsDigit(s[i]);
        assert IsDigit(s[1..][i - 1]);
      }
    }
  }

  // ---------------------------------------------------------------- trim

  /**
   * What `String.prototype.trim` removes: the ECMAScript WhiteSpace characters (tab,
   * vertical tab, form feed, the byte order mark and every space separator of Unicode
   * category Zs) and the LineTerminator characters.
   */
  predicate IsJsWhitespace(c: char) {
    c == '\t' || c == '\n' || c == '\U{B}' || c == '\U{C}' || c == '\r' || c == ' '
    || c == '\U{A0}' || c == '\U{1680}' || ('\U{2000}' <= c <= '\U{200A}')
    || c == '\U{2028}' || c == '\U{2029}' || c == '\U{202F}' || c == '\U{205F}'
    || c == '\U{3000}' || c == '\U{FEFF}'
  }

  predicate AllWhitespace(s: string) {
    forall i :: 0 <= i < |s| ==> IsJsWhitespace(s[i])
  }

  /** Neither end of `s` is whitespace. */
  predicate IsTrimmed(s: string) {
    s == [] || (!IsJsWhitespace(s[0]) && !IsJsWhitespace(s[|s| - 1]))
  }

  /** Leading whitespace removed: the result is the suffix after the longest whitespace prefix. */
  function TrimStart(s: string): (r: string)
    ensures |r| <= |s| && r == s[|s| - |r|..]
    ensures AllWhitespace(s[..|s| - |r|])
    ensures r == [] || !IsJsWhitespace(r[0])
    decreases |s|
  {
    if s != [] && IsJsWhitespace(s[0]) then
      var r := TrimStart(s[1..]);
      assert s[..|s| - |r|] == [s[0]] + s[1..][..|s[1..]| - |r|];
      r
    else s
  }

  /** Trailing whitespace removed: the result is the prefix before the longest whitespace suffix. */
  function TrimEnd(s: string): (r: string)
    ensures |r| <= |s| && r == s[..|r|]
    ensures AllWhitespace(s[|r|..])
    ensures r == [] || !IsJsWhitespace(r[|r| - 1])
    decreases |s|
  {
    if s != [] && IsJsWhitespace(s[|s| - 1]) then
      var r := TrimEnd(s[..|s| - 1]);
      assert s[|r|..] == s[..|s| - 1][|r|..] + [s[|s| - 1]];
      r
    else s
  }

  /** `String.prototype.trim`: the result has no whitespace at either end. */
  function Trim(s: string): (r: string)
    ensures IsTrimmed(r)
    ensures |r| <= |s|
  {
    var t := TrimStart(s);
    var r := TrimEnd(t);
    assert r != [] ==> r[0] == t[0];
    r
  }

  lemma {:induction false} TrimStartOf(a: string, t: string)
    requires AllWhitespace(a)
    requires t == [] || !IsJsWhitespace(t[0])
    ensures TrimStart(a + t) == t
    decreases |a|
  {
    if a == [] {
      assert a + t == t;
    } else {
      assert (a + t)[1..] == a[1..] + t;
      assert AllWhitespace(a[1..]) by {
        forall i | 0 <= i < |a[1..]| ensures IsJsWhitespace(a[1..][i]) { assert a[1..][i] == a[i + 1]; }
      }
      TrimStartOf(a[1..], t);
    }
  }

  lemma {:induction false} TrimEndOf(t: string, b: string)
    requires AllWhitespace(b)
    requires t == [] || !IsJsWhitespace(t[|t| - 1])
    ensures TrimEnd(t + b) == t
    decreases |b|
  {
    if b == [] {
      assert t + b == t;
    } else {
      var b' := b[..|b| - 1];
      assert (t + b)[..|t + b| - 1] == t + b';
      assert AllWhitespace(b') by {
        forall i | 0 <= i < |b'| ensures IsJsWhitespace(b'[i]) { assert b'[i] == b[i]; }
      }
      TrimEndOf(t, b');
    }
  }

  /**
   * Trim is determined by its shape: whatever whitespace surrounds a string whose ends
   * are not whitespace, trimming yields that string.
   */
  lemma TrimOf(a: string, m: string, b: string)
    requires AllWhitespace(a) && AllWhitespace(b) && IsTrimmed(m)
    ensures Trim(a + m + b) == m
  {
    if m == [] {
      assert a + m + b == (a + b) + [];
      assert AllWhitespace(a + b) by {
        forall i | 0 <= i < |a + b| ensures IsJsWhitespace((a + b)[i]) {
          if i < |a| { assert (a + b)[i] == a[i]; } else { assert (a + b)[i] == b[i - |a|]; }
        }
      }
      TrimStartOf(a + b, []);
      assert TrimEnd([]) == [];
    } else {
      assert a + m + b == a + (m + b);
      TrimStartOf(a, m + b);
      TrimEndOf(m, b);
    }
  }

  /** The whitespace `trim` removes in front. */
  function LeadingWhitespace(s: string): (r: string)
    ensures AllWhitespace(r)
  {
    s[..|s| - |TrimStart(s)|]
  }

  /** The whitespace `trim` removes at the back. */
  function TrailingWhitespace(s: string): (r: string)
    ensures AllWhitespace(r)
  {
    var t := TrimStart(s);
    t[|TrimEnd(t)|..]
  }

  /** Every string is its trim surrounded by the whitespace trim removes. */
  lemma TrimSplits(s: string)
    ensures s == LeadingWhitespace(s) + Trim(s) + TrailingWhitespace(s)
  {
    var t := TrimStart(s);
    var a := LeadingWhitespace(s);
    SplitAt(s, |s| - |t|);
    assert s == a + t;
    var r := TrimEnd(t);
    var b := TrailingWhitespace(s);
    SplitAt(t, |r|);
    assert t == r + b;
    ConcatAssoc(a, r, b);
  }

  lemma SplitAt(s: string, k: nat)
    requires k <= |s|
    ensures s == s[..k] + s[k..]
  {
  }

  lemma Regroup(a: string, a': string, m: string, b': string, b: string)
    ensures a + (a' + m + b') + b == (a + a') + m + (b' + b)
  {
  }

  lemma ConcatAssoc(a: string, m: string, b: string)
    ensures a + (m + b) == a + m + b
  {
  }

  /** Surrounding whitespace does not change the trim. */
  lemma TrimIgnoresSurroundingWhitespace(a: string, s: string, b: string)
    requires AllWhitespace(a) && AllWhitespace(b)
    ensures Trim(a + s + b) == Trim(s)
  {
    TrimSplits(s);
    var a', b' := LeadingWhitespace(s), TrailingWhitespace(s);
    AllWhitespaceAppend(a, a');
    AllWhitespaceAppend(b', b);
    Regroup(a, a', Trim(s), b', b);
    TrimOf(a + a', Trim(s), b' + b);
  }

  /** A string without whitespace at its ends is its own trim. */
  lemma TrimOfTrimmed(m: string)
    requires IsTrimmed(m)
    ensures Trim(m) == m
  {
    assert TrimStart(m) == m;
  }

  /** Trimming twice is trimming once. */
  lemma TrimIdempotent(s: string)
    ensures Trim(Trim(s)) == Trim(s)
  {
    TrimOfTrimmed(Trim(s));
  }

  lemma AllWhitespaceAppend(a: string, b: string)
    requires AllWhitespace(a) && AllWhitespace(b)
    ensures AllWhitespace(a + b)
  {
    forall i | 0 <= i < |a + b| ensures IsJsWhitespace((a + b)[i]) {
      if i < |a| { assert (a + b)[i] == a[i]; } else { assert (a + b)[i] == b[i - |a|]; }
    }
  }

  // ---------------------------------------------------------------- lower case

  predicate IsAsciiUpper(c: char) {
    'A' <= c <= 'Z'
  }

  /** `toLowerCase` on one character, for the ASCII letters. */
  function LowerChar(c: char): char {
    if IsAsciiUpper(c) then (c as int + 32) as char else c
  }

  /**
   * `String.prototype.toLowerCase`, character by character: each of `A`-`Z` becomes the
   * letter 32 code points further on (`a`-`z`), every other character is kept, and the
   * result has no upper-case ASCII letter.
   */
  function Lower(s: string): (r: string)
    ensures |r| == |s|
    ensures forall i :: 0 <= i < |s| && IsAsciiUpper(s[i]) ==> r[i] as int == s[i] as int + 32
    ensures forall i :: 0 <= i < |s| && !IsAsciiUpper(s[i]) ==> r[i] == s[i]
    ensures forall i :: 0 <= i < |r| ==> !IsAsciiUpper(r[i])
  {
    seq(|s|, i requires 0 <= i < |s| => LowerChar(s[i]))
  }

  /** Two characters that are equal, or are the upper- and lower-case form of one ASCII letter. */
  predicate SameIgnoringAsciiCase(c: char, d: char) {
    || c == d
    || (IsAsciiUpper(c) && d as int == c as int + 32)
    || (IsAsciiUpper(d) && c as int == d as int + 32)
  }

  /** Two strings lower-case alike exactly when they differ only in the case of ASCII letters. */
  lemma LowerEqualIff(x: string, y: string)
    ensures Lower(x) == Lower(y) <==>
      |x| == |y| && forall i :: 0 <= i < |x| ==> SameIgnoringAsciiCase(x[i], y[i])
  {
    if Lower(x) == Lower(y) {
      forall i | 0 <= i < |x| ensures SameIgnoringAsciiCase(x[i], y[i]) {
        assert Lower(x)[i] == Lower(y)[i];
      }
    }
    if |x| == |y| && forall i :: 0 <= i < |x| ==> SameIgnoringAsciiCase(x[i], y[i]) {
      forall i | 0 <= i < |x| ensures Lower(x)[i] == Lower(y)[i] {
        assert SameIgnoringAsciiCase(x[i], y[i]);
      }
    }
  }

  /** Lower-casing twice is lower-casing once. */
  lemma LowerIdempotent(s: string)
    ensures Lower(Lower(s)) == Lower(s)
  {
  }

  lemma LowerAppend(s: string, t: string)
    ensures Lower(s + t) == Lower(s) + Lower(t)
  {
    assert forall i :: 0 <= i < |s + t| ==> Lower(s + t)[i] == (Lower(s) + Lower(t))[i];
  }

  /** Lower-casing maps whitespace to whitespace and nothing else to whitespace. */
  lemma LowerWhitespace(s: string)
    ensures AllWhitespace(Lower(s)) <==> AllWhitespace(s)
    ensures IsTrimmed(Lower(s)) <==> IsTrimmed(s)
  {
    assert forall i :: 0 <= i < |s| ==> (IsJsWhitespace(Lower(s)[i]) <==> IsJsWhitespace(s[i]));
  }

  /** Trim and lower-case commute. */
  lemma TrimLowerCommute(s: string)
    ensures Trim(Lower(s)) == Lower(Trim(s))
  {
    TrimSplits(s);
    var a, b := LeadingWhitespace(s), TrailingWhitespace(s);
    LowerAppend(a, Trim(s));
    LowerAppend(a + Trim(s), b);
    LowerWhitespace(a);
    LowerWhitespace(b);
    LowerWhitespace(Trim(s));
    TrimOf(Lower(a), Lower(Trim(s)), Lower(b));
  }

  // ---------------------------------------------------------------- canonical form

  /**
   * The pre-processing `sha256` applies to its argument: trim, then lower-case. The result
   * has no whitespace at either end and no upper-case ASCII letter.
   */
  function Canonical(s: string): (r: string)
    ensures IsTrimmed(r)
    ensures forall i :: 0 <= i < |r| ==> !IsAsciiUpper(r[i])
  {
    LowerWhitespace(Trim(s));
    Lower(Trim(s))
  }

  /** The canonical form is canonical: processing it again changes nothing. */
  lemma CanonicalIdempotent(s: string)
    ensures Canonical(Canonical(s)) == Canonical(s)
  {
    TrimLowerCommute(Trim(s));
    TrimIdempotent(s);
    LowerIdempotent(Trim(s));
  }

  /**
   * Strings that differ only in surrounding whitespace and in the case of ASCII letters
   * have the same canonical form.
   */
  lemma CanonicalEquivalent(a: string, x: string, y: string, b: string)
    requires AllWhitespace(a) && AllWhitespace(b)
    requires |x| == |y| && forall i :: 0 <= i < |x| ==> SameIgnoringAsciiCase(x[i], y[i])
    ensures Canonical(a + x + b) == Canonical(y)
  {
    LowerEqualIff(x, y);
    TrimIgnoresSurroundingWhitespace(a, x, b);
    TrimLowerCommute(x);
    TrimLowerCommute(y);
  }

  /** A string of digits is its own canonical form. */
  lemma CanonicalOfDigits(s: string)
    requires IsDigits(s)
    ensures Canonical(s) == s
  {
    assert IsTrimmed(s) by {
      if s != [] { assert IsDigit(s[0]) && IsDigit(s[|s| - 1]); }
    }
    TrimOfTrimmed(s);
    assert Lower(s) == s by {
      forall i | 0 <= i < |s| ensures Lower(s)[i] == s[i] { assert IsDigit(s[i]); }
    }
  }

  /** A string of whitespace only has the empty canonical form. */
  lemma CanonicalOfWhitespace(s: string)
    requires AllWhitespace(s)
    ensures Canonical(s) == ""
  {
    assert s + "" + "" == s;
    TrimOf(s, "", "");
  }
}
