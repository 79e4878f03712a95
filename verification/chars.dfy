/**
 Character classes of the robots.txt grammar, and the whitespace trimming
 applied to comment text.

 The source tests single characters with JavaScript regular expressions.
 `/^.$/` rejects the four JavaScript line terminators (LF, CR, U+2028,
 U+2029) besides anything that is not one code unit; characters here are
 Unicode scalar values, so surrogate pairs are not modelled.
 */
module Chars {
  import opened Combinators

  const BOM: char := '\U{FEFF}'

  /** The control characters U+0000 to U+001F and U+007F. */
  predicate IsCTL(c: char) {
    c <= '\U{1F}' || c == '\U{7F}'
  }

  /** The one byte-order mark, U+FEFF. */
  predicate IsBOM(c: char) {
    c == BOM
  }

  /** The characters JavaScript's `.` does not match. */
  predicate IsJsLineTerminator(c: char) {
    c == '\n' || c == '\r' || c == '\U{2028}' || c == '\U{2029}'
  }

  /** Any character except a control character (the body of a comment). */
  predicate IsAnychar(c: char) {
    !IsJsLineTerminator(c) && !IsCTL(c)
  }

  /** Any character except a control character or `#` (the body of a value). */
  predicate IsValuechar(c: char) {
    !IsJsLineTerminator(c) && !(IsCTL(c) || c == '#')
  }

  /** Space or horizontal tab: the characters of linear whitespace. */
  predicate IsBlank(c: char) {
    c == ' ' || c == '\t'
  }

  /** The white space and line terminators JavaScript's `String.prototype.trim` removes. */
  predicate IsJsWhitespace(c: char) {
    || c == '\t' || c == '\n' || c == '\U{0B}' || c == '\U{0C}' || c == '\r' || c == ' '
    || c == '\U{A0}' || c == '\U{1680}' || ('\U{2000}' <= c <= '\U{200A}')
    || c == '\U{2028}' || c == '\U{2029}' || c == '\U{202F}' || c == '\U{205F}'
    || c == '\U{3000}' || c == BOM
  }

  /** Neither end of `s` is JavaScript white space. */
  predicate IsTrimmed(s: string) {
    |s| == 0 || (!IsJsWhitespace(s[0]) && !IsJsWhitespace(s[|s| - 1]))
  }

  /**
   The relations between the classes: a control character is exactly a code
   point below U+0020 or U+007F, value characters are the characters other
   than `#`, and neither class admits CR, LF or TAB.
   */
  lemma CharClasses(c: char)
    ensures IsCTL(c) <==> (c as int) < 0x20 || (c as int) == 0x7F
    ensures IsAnychar(c) ==> !IsCTL(c) && c != '\r' && c != '\n' && c != '\t'
    ensures IsValuechar(c) <==> IsAnychar(c) && c != '#'
    ensures IsBlank(c) ==> (IsValuechar(c) <==> c == ' ')
  {
  }

  /** `r` sits at offset `a` of `s`, and everything of `s` around it is white space. */
  predicate TrimmedAt(s: string, r: string, a: nat) {
    && a + |r| <= |s|
    && s[a..a + |r|] == r
    && (forall i :: 0 <= i < a ==> IsJsWhitespace(s[i]))
    && (forall i :: a + |r| <= i < |s| ==> IsJsWhitespace(s[i]))
  }

  /**
   JavaScript's `trim()`: the result is the middle of `s` left after removing
   the white space at both ends, and nothing else.
   */
  function Trim(s: string): (r: string)
    ensures IsTrimmed(r)
    ensures |r| == 0 <==> forall i :: 0 <= i < |s| ==> IsJsWhitespace(s[i])
    ensures exists a :: TrimmedAt(s, r, a)
    ensures forall c :: c in r ==> c in s
  {
    var a := SpanLength(IsJsWhitespace, s);
    var t := s[a..];
    var b := TrailingLength(IsJsWhitespace, t);
    var r := t[..|t| - b];
    assert s[a..a + |r|] == r;
    assert forall i :: a + |r| <= i < |s| ==> s[i] == t[i - a];
    assert TrimmedAt(s, r, a);
    r
  }

  /** Trimming text that is already trimmed changes nothing. */
  lemma TrimOfTrimmed(s: string)
    requires IsTrimmed(s)
    ensures Trim(s) == s
  {
    var r := Trim(s);
    var a: nat :| TrimmedAt(s, r, a);
    if |s| > 0 {
      assert a == 0 && a + |r| == |s|;
      assert s[0..|s|] == s;
    }
  }

  /** `trim()` is idempotent. */
  lemma TrimIdempotent(s: string)
    ensures Trim(Trim(s)) == Trim(s)
  {
    TrimOfTrimmed(Trim(s));
  }
}
