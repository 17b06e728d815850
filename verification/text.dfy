/** Character classes and the java.lang.String / Python str operations the
    pipeline relies on. Case mapping is ASCII-only. */
module Text {

  // ---------------------------------------------------------------------
  // Character classes
  // ---------------------------------------------------------------------

  /** The characters String.trim() removes: every code point up to U+0020. */
  predicate IsTrimmable(c: char) { c <= ' ' }

  /** Character.isWhitespace, on which String.isBlank() is built. */
  predicate IsJavaWhitespace(c: char)
  {
    ('\t' <= c <= '\r') || ('\U{1C}' <= c <= ' ') || c == '\U{1680}'
    || ('\U{2000}' <= c <= '\U{2006}') || ('\U{2008}' <= c <= '\U{200A}')
    || c == '\U{2028}' || c == '\U{2029}' || c == '\U{205F}' || c == '\U{3000}'
  }

  /** `\s` of java.util.regex without UNICODE_CHARACTER_CLASS: [ \t\n\x0B\f\r]. */
  predicate IsRegexSpace(c: char) { c == ' ' || ('\t' <= c <= '\r') }

  /** Python's str.isspace(): what str.strip() removes and what `\s` matches in `re`. */
  predicate IsPySpace(c: char)
  {
    ('\t' <= c <= '\r') || ('\U{1C}' <= c <= ' ') || c == '\U{85}' || c == '\U{A0}'
    || c == '\U{1680}' || ('\U{2000}' <= c <= '\U{200A}') || c == '\U{2028}'
    || c == '\U{2029}' || c == '\U{202F}' || c == '\U{205F}' || c == '\U{3000}'
  }

  /** The characters `.` does not match in java.util.regex. */
  predicate IsLineTerminator(c: char)
  {
    c == '\n' || c == '\r' || c == '\U{85}' || c == '\U{2028}' || c == '\U{2029}'
  }

  predicate IsAsciiLetter(c: char) { ('A' <= c <= 'Z') || ('a' <= c <= 'z') }

  predicate IsDigit(c: char) { '0' <= c <= '9' }

  /** `[A-Za-z0-9_]`, which is also `\w`. */
  predicate IsWordChar(c: char) { IsAsciiLetter(c) || IsDigit(c) || c == '_' }

  /** `[A-Za-z_]`, the first character of an identifier. */
  predicate IsIdentStart(c: char) { IsAsciiLetter(c) || c == '_' }

  /** `[A-Za-z_][A-Za-z0-9_]*` */
  predicate IsIdent(t: string)
  {
    |t| > 0 && IsIdentStart(t[0]) && forall k :: 1 <= k < |t| ==> IsWordChar(t[k])
  }

  /** An identifier, optionally member-qualified as `Owner.Member`. */
  predicate IsQualifiedName(t: string)
  {
    IsIdent(t) || exists k :: 0 < k < |t| && t[k] == '.' && IsIdent(t[..k]) && IsIdent(t[k + 1..])
  }

  /** The UTF-16 code units java.lang.String spends on `c`: a surrogate
      pair for a character above U+FFFF, one unit otherwise. */
  function Utf16Width(c: char): nat { if c as int > 0xFFFF then 2 else 1 }

  /** String.length(): the number of UTF-16 code units of `s`. */
  function Utf16Length(s: string): nat
  {
    if s == [] then 0 else Utf16Length(s[..|s| - 1]) + Utf16Width(s[|s| - 1])
  }

  // ---------------------------------------------------------------------
  // Case mapping (ASCII)
  // ---------------------------------------------------------------------

  function LowerChar(c: char): char
  {
    if 'A' <= c <= 'Z' then (c as int + 32) as char else c
  }

  function UpperChar(c: char): char
  {
    if 'a' <= c <= 'z' then (c as int - 32) as char else c
  }

  function Lower(s: string): (r: string)
    ensures |r| == |s|
    ensures forall k :: 0 <= k < |s| ==> r[k] == LowerChar(s[k])
  {
    seq(|s|, k requires 0 <= k < |s| => LowerChar(s[k]))
  }

  function Upper(s: string): (r: string)
    ensures |r| == |s|
    ensures forall k :: 0 <= k < |s| ==> r[k] == UpperChar(s[k])
  {
    seq(|s|, k requires 0 <= k < |s| => UpperChar(s[k]))
  }

  /** String.equalsIgnoreCase over ASCII: equal lengths and equal characters
      once both are lower-cased. */
  predicate EqualsIgnoreCase(a: string, b: string)
  {
    |a| == |b| && forall k :: 0 <= k < |a| ==> LowerChar(a[k]) == LowerChar(b[k])
  }

  /** Texts equal up to case have the same upper-cased form. */
  lemma UpperIgnoresCase(a: string, b: string)
    requires EqualsIgnoreCase(a, b)
    ensures Upper(a) == Upper(b)
  {
    assert forall k :: 0 <= k < |a| ==> UpperChar(a[k]) == UpperChar(b[k]) by {
      forall k | 0 <= k < |a|
        ensures UpperChar(a[k]) == UpperChar(b[k])
      {
        assert LowerChar(a[k]) == LowerChar(b[k]);
      }
    }
  }

  // ---------------------------------------------------------------------
  // Trimming
  // ---------------------------------------------------------------------

  /** Length of the run of `sp` characters at the start of `s`. */
  function LeadingRun(s: string, sp: char -> bool): (n: nat)
    ensures n <= |s|
    ensures forall k :: 0 <= k < n ==> sp(s[k])
    ensures n < |s| ==> !sp(s[n])
  {
    if s == [] || !sp(s[0]) then 0 else 1 + LeadingRun(s[1..], sp)
  }

  /** Index at which the run of `sp` characters at the end of `s` begins. */
  function TrailingRun(s: string, sp: char -> bool): (n: nat)
    ensures n <= |s|
    ensures forall k :: n <= k < |s| ==> sp(s[k])
    ensures 0 < n ==> !sp(s[n - 1])
  {
    if s == [] || !sp(s[|s| - 1]) then |s| else TrailingRun(s[..|s| - 1], sp)
  }

  /** `s` without its leading and trailing `sp` characters. */
  function Strip(s: string, sp: char -> bool): (r: string)
    ensures |r| <= |s|
    ensures r == [] <==> forall k :: 0 <= k < |s| ==> sp(s[k])
    ensures r != [] ==> r == s[LeadingRun(s, sp)..TrailingRun(s, sp)]
    ensures r != [] ==> !sp(r[0]) && !sp(r[|r| - 1])
  {
    var i := LeadingRun(s, sp);
    var j := TrailingRun(s, sp);
    if j <= i then [] else s[i..j]
  }

  /** Stripping keeps exactly the part between the padding runs. */
  lemma StripBetween(s: string, sp: char -> bool, i: nat, j: nat)
    requires i < j <= |s|
    requires forall k :: 0 <= k < i ==> sp(s[k])
    requires forall k :: j <= k < |s| ==> sp(s[k])
    requires !sp(s[i]) && !sp(s[j - 1])
    ensures Strip(s, sp) == s[i..j]
  {
  }

  /** String.trim() */
  function Trim(s: string): string { Strip(s, IsTrimmable) }

  /** Python's str.strip() */
  function PyStrip(s: string): string { Strip(s, IsPySpace) }

  /** String.isBlank() */
  predicate IsBlank(s: string) { forall k :: 0 <= k < |s| ==> IsJavaWhitespace(s[k]) }

  /** A trimmed line that is empty or an apostrophe comment. */
  predicate IsBlankOrComment(trimmed: string) { trimmed == [] || trimmed[0] == '\'' }

  // ---------------------------------------------------------------------
  // Searching and splitting
  // ---------------------------------------------------------------------

  predicate StartsWith(s: string, prefix: string)
  {
    |prefix| <= |s| && s[..|prefix|] == prefix
  }

  predicate EndsWith(s: string, suffix: string)
  {
    |suffix| <= |s| && s[|s| - |suffix|..] == suffix
  }

  /** String.indexOf(char): the first position of `c`, or -1. */
  function IndexOf(s: string, c: char): (i: int)
    ensures -1 <= i < |s|
    ensures i == -1 <==> c !in s
    ensures 0 <= i ==> s[i] == c && c !in s[..i]
  {
    if s == [] then -1
    else if s[0] == c then 0
    else
      var j := IndexOf(s[1..], c);
      assert s[1..][..if j < 0 then 0 else j] == s[1..if j < 0 then 1 else j + 1];
      if j < 0 then -1 else j + 1
  }

  /** IndexOf is the first occurrence, whichever way it is found. */
  lemma IndexOfIs(s: string, c: char, i: nat)
    requires i < |s| && s[i] == c
    requires forall k :: 0 <= k < i ==> s[k] != c
    ensures IndexOf(s, c) == i
  {
  }

  /** Number of occurrences of `c` in `s`. */
  function Count(s: string, c: char): nat
  {
    if s == [] then 0 else (if s[0] == c then 1 else 0) + Count(s[1..], c)
  }

  /** Counting distributes over concatenation. */
  lemma {:induction false} CountConcat(a: string, b: string, c: char)
    ensures Count(a + b, c) == Count(a, c) + Count(b, c)
  {
    if a != [] {
      CountConcat(a[1..], b, c);
      assert (a + b)[1..] == a[1..] + b;
    } else {
      assert a + b == b;
    }
  }

  /** String.replace of a one-character target: every `c` becomes `rep`. */
  function Replace(s: string, c: char, rep: string): string
  {
    if s == [] then [] else (if s[0] == c then rep else [s[0]]) + Replace(s[1..], c, rep)
  }

  /** Python's `sep.join(parts)` */
  function Join(parts: seq<string>, sep: string): string
  {
    if parts == [] then []
    else if |parts| == 1 then parts[0]
    else parts[0] + sep + Join(parts[1..], sep)
  }

  // ---------------------------------------------------------------------
  // Lexicographic order (String.compareTo)
  // ---------------------------------------------------------------------

  /** `a.compareTo(b) <= 0`: character-wise comparison, a proper prefix first. */
  predicate LexLe(a: string, b: string)
  {
    a == [] || (b != [] && (a[0] < b[0] || (a[0] == b[0] && LexLe(a[1..], b[1..]))))
  }

  lemma {:induction false} LexLeTotal(a: string, b: string)
    ensures LexLe(a, b) || LexLe(b, a)
  {
    if a != [] && b != [] && a[0] == b[0] {
      LexLeTotal(a[1..], b[1..]);
    }
  }

  lemma {:induction false} LexLeTransitive(a: string, b: string, c: string)
    requires LexLe(a, b) && LexLe(b, c)
    ensures LexLe(a, c)
  {
    if a != [] && b != [] && c != [] && a[0] == b[0] && b[0] == c[0] {
      LexLeTransitive(a[1..], b[1..], c[1..]);
    }
  }

  lemma {:induction false} LexLeAntisymmetric(a: string, b: string)
    requires LexLe(a, b) && LexLe(b, a)
    ensures a == b
  {
    if a != [] && b != [] {
      LexLeAntisymmetric(a[1..], b[1..]);
      assert a == [a[0]] + a[1..] && b == [b[0]] + b[1..];
    }
  }
}
