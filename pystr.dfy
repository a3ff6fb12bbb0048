/**
 * The two pieces of Python's `str` behaviour that the owner/pet model relies
 * on: `str.strip()` with no argument (used to reject blank names) and the `<`
 * comparison on strings (used by `sorted`, which compares keys with `<` only).
 */
module PyStr {

  /** Python's `str.isspace()` for a single character: the code points that
      `str.strip()` removes when it is called without an argument. */
  predicate IsWhitespace(c: char) {
    var n := c as int;
    n == 0x20 || 0x09 <= n <= 0x0D || 0x1C <= n <= 0x1F || n == 0x85 || n == 0xA0
    || n == 0x1680 || 0x2000 <= n <= 0x200A || n == 0x2028 || n == 0x2029
    || n == 0x202F || n == 0x205F || n == 0x3000
  }

  /** Sample characters: ASCII blanks, the no-break and ideographic spaces
      are whitespace to Python; the zero-width space U+200B and the Mongolian
      vowel separator U+180E are not. */
  lemma WhitespaceSamples()
    ensures IsWhitespace(' ') && IsWhitespace('\t') && IsWhitespace('\n') && IsWhitespace('\r')
    ensures IsWhitespace('\U{000B}') && IsWhitespace('\U{000C}') && IsWhitespace('\U{00A0}') && IsWhitespace('\U{3000}')
    ensures !IsWhitespace('a') && !IsWhitespace('\U{200B}') && !IsWhitespace('\U{180E}') && !IsWhitespace('\U{0000}')
  {
  }

  /** Every character of `s` is whitespace; the empty string is blank. */
  predicate IsBlank(s: string) {
    forall i :: 0 <= i < |s| ==> IsWhitespace(s[i])
  }

  /** `s.lstrip()`: drops the longest all-whitespace prefix. */
  function TrimStart(s: string): (r: string)
    ensures |r| <= |s| && r == s[|s| - |r|..]
    ensures forall i :: 0 <= i < |s| - |r| ==> IsWhitespace(s[i])
    ensures r != [] ==> !IsWhitespace(r[0])
  {
    if s != [] && IsWhitespace(s[0]) then TrimStart(s[1..]) else s
  }

  /** `s.rstrip()`: drops the longest all-whitespace suffix. */
  function TrimEnd(s: string): (r: string)
    ensures |r| <= |s| && r == s[..|r|]
    ensures forall i :: |r| <= i < |s| ==> IsWhitespace(s[i])
    ensures r != [] ==> !IsWhitespace(r[|r| - 1])
  {
    if s != [] && IsWhitespace(s[|s| - 1]) then TrimEnd(s[..|s| - 1]) else s
  }

  /** `s` is empty, or starts and ends with a non-whitespace character. */
  predicate Trimmed(s: string) {
    s != [] ==> !IsWhitespace(s[0]) && !IsWhitespace(s[|s| - 1])
  }

  /** `s` is `r` with `lo` whitespace characters before it and only
      whitespace after it. */
  predicate BlankPadded(s: string, lo: int, r: string) {
    0 <= lo <= |s| - |r| && r == s[lo..][..|r|] && IsBlank(s[..lo]) && IsBlank(s[lo + |r|..])
  }

  /** `s.strip()`: the infix of `s` left after removing whitespace at both
      ends. It is empty exactly when `s` is blank, which is what the source's
      `not name.strip()` tests. */
  function Strip(s: string): (r: string)
    ensures r == [] <==> IsBlank(s)
    ensures Trimmed(r)
    ensures exists lo :: BlankPadded(s, lo, r)
  {
    var t := TrimStart(s);
    var r := TrimEnd(t);
    StripParts(s, t, r);
    StripEmpty(s, t, r);
    StripEnds(t, r);
    r
  }

  /** `s` is the whitespace `lstrip` drops, then `TrimEnd(t)`, then the
      whitespace `rstrip` drops. */
  lemma StripParts(s: string, t: string, r: string)
    requires t == TrimStart(s) && r == TrimEnd(t)
    ensures BlankPadded(s, |s| - |t|, r)
  {
    var lo := |s| - |t|;
    assert t == s[lo..] && r == t[..|r|];
    assert IsBlank(s[..lo]) by {
      forall i | 0 <= i < lo ensures IsWhitespace(s[..lo][i]) {
        assert s[..lo][i] == s[i];
      }
    }
    var tail := s[lo + |r|..];
    assert IsBlank(tail) by {
      forall i | 0 <= i < |tail| ensures IsWhitespace(tail[i]) {
        assert tail[i] == t[|r| + i];
      }
    }
  }

  /** Both trims remove everything exactly when everything is whitespace. */
  lemma StripEmpty(s: string, t: string, r: string)
    requires t == TrimStart(s) && r == TrimEnd(t)
    ensures r == [] <==> IsBlank(s)
  {
    if r == [] {
      forall i | 0 <= i < |s| ensures IsWhitespace(s[i]) {
      }
    } else {
      assert r[0] == t[0] == s[|s| - |t|];
    }
  }

  /** What both trims leave starts and ends with a non-whitespace character. */
  lemma StripEnds(t: string, r: string)
    requires (t != [] ==> !IsWhitespace(t[0])) && r == TrimEnd(t)
    ensures Trimmed(r)
  {
    if r != [] {
      assert r[0] == t[0];
    }
  }

  /** Python's `a < b` on `str`: lexicographic order on code points, where a
      proper prefix is smaller. */
  predicate Less(a: string, b: string) {
    b != [] && (a == [] || a[0] < b[0] || (a[0] == b[0] && Less(a[1..], b[1..])))
  }

  /** `Less` is the textbook lexicographic order: `a` is a proper prefix of
      `b`, or at the first position where they differ `a` has the smaller
      code point. */
  lemma {:induction false} LessIsLexicographic(a: string, b: string)
    ensures Less(a, b) <==> PrefixBelow(a, b) || FirstDiffBelow(a, b)
  {
    if a != [] && b != [] && a[0] == b[0] {
      LessIsLexicographic(a[1..], b[1..]);
      ShiftLexicographic(a, b);
    }
  }

  /** `a` is a proper prefix of `b`. */
  predicate PrefixBelow(a: string, b: string) {
    |a| < |b| && a == b[..|a|]
  }

  /** At the first position where `a` and `b` differ, `a` has the smaller
      code point. */
  predicate FirstDiffBelow(a: string, b: string) {
    exists i :: 0 <= i < |a| && i < |b| && a[..i] == b[..i] && a[i] < b[i]
  }

  /** Dropping a shared first character does not change either notion. */
  lemma ShiftLexicographic(a: string, b: string)
    requires a != [] && b != [] && a[0] == b[0]
    ensures PrefixBelow(a, b) <==> PrefixBelow(a[1..], b[1..])
    ensures FirstDiffBelow(a, b) <==> FirstDiffBelow(a[1..], b[1..])
  {
    var a', b' := a[1..], b[1..];
    if PrefixBelow(a', b') {
      assert a == [a[0]] + a' && b[..|a|] == [b[0]] + b'[..|a'|];
    }
    if FirstDiffBelow(a', b') {
      var i :| 0 <= i < |a'| && i < |b'| && a'[..i] == b'[..i] && a'[i] < b'[i];
      assert a[..i + 1] == [a[0]] + a'[..i] && b[..i + 1] == [b[0]] + b'[..i];
      assert a[i + 1] < b[i + 1];
    }
    if FirstDiffBelow(a, b) {
      var i :| 0 <= i < |a| && i < |b| && a[..i] == b[..i] && a[i] < b[i];
      assert i > 0;
      assert a'[..i - 1] == a[..i][1..] && b'[..i - 1] == b[..i][1..];
      assert a'[i - 1] < b'[i - 1];
    }
  }

  lemma {:induction false} LessIrreflexive(a: string)
    ensures !Less(a, a)
  {
    if a != [] {
      LessIrreflexive(a[1..]);
    }
  }

  lemma {:induction false} LessAsymmetric(a: string, b: string)
    ensures Less(a, b) ==> !Less(b, a)
  {
    if a != [] && b != [] && a[0] == b[0] {
      LessAsymmetric(a[1..], b[1..]);
    }
  }

  lemma {:induction false} LessTransitive(a: string, b: string, c: string)
    requires Less(a, b) && Less(b, c)
    ensures Less(a, c)
  {
    if a != [] && a[0] == b[0] && b[0] == c[0] {
      LessTransitive(a[1..], b[1..], c[1..]);
    }
  }

  /** Any two strings are equal or ordered one way: `<` on `str` is total. */
  lemma {:induction false} LessTrichotomy(a: string, b: string)
    ensures Less(a, b) || a == b || Less(b, a)
  {
    if a != [] && b != [] && a[0] == b[0] {
      LessTrichotomy(a[1..], b[1..]);
      if a[1..] == b[1..] {
        assert a == [a[0]] + a[1..] && b == [b[0]] + b[1..];
      }
    }
  }

  /** "Not greater" (`not b < a`, Python's `a <= b`) is transitive. */
  lemma NotLessTransitive(a: string, b: string, c: string)
    requires !Less(b, a) && !Less(c, b)
    ensures !Less(c, a)
  {
    if Less(c, a) {
      LessTrichotomy(b, c);
      if Less(b, c) {
        LessTransitive(b, c, a);
      }
    }
  }
}
