/** The regular expressions of the extractors and of the wiki tools, each
    written out as the matcher java.util.regex (or Python's `re`) runs for it:
    greedy runs, the alternatives a failed branch falls back to, and the
    scan that Matcher.find() performs from a start position. Word characters
    and case folding are ASCII. */
module Patterns {
  import opened Base
  import opened Text

  // ---------------------------------------------------------------------
  // Building blocks
  // ---------------------------------------------------------------------

  /** Position after the greedy run of `p` characters that starts at `i`. */
  function Skip(s: string, i: nat, p: char -> bool): (j: nat)
    requires i <= |s|
    ensures i <= j <= |s|
    ensures forall k :: i <= k < j ==> p(s[k])
    ensures j < |s| ==> !p(s[j])
    decreases |s| - i
  {
    if i < |s| && p(s[i]) then Skip(s, i + 1, p) else i
  }

  /** The literal `w` occurs at position `i` of `s`, ignoring ASCII case. */
  predicate MatchesAt(s: string, i: nat, w: string)
  {
    i + |w| <= |s| && EqualsIgnoreCase(s[i..i + |w|], w)
  }

  /** `\b` at position `i`: exactly one of the neighbouring characters is a word character. */
  predicate Boundary(s: string, i: nat)
    requires i <= |s|
  {
    (0 < i && IsWordChar(s[i - 1])) != (i < |s| && IsWordChar(s[i]))
  }

  /** A maximal identifier `[A-Za-z_][A-Za-z0-9_]*` starting at `q`. */
  lemma IdentRun(s: string, q: nat)
    requires q < |s| && IsIdentStart(s[q])
    ensures IsIdent(s[q..Skip(s, q + 1, IsWordChar)])
  {
  }

  // ---------------------------------------------------------------------
  // BasExtractor (java.util.regex, CASE_INSENSITIVE)
  // ---------------------------------------------------------------------

  /** `^\s*Attribute\s+VB_Name\s*=\s*"([^"]+)"`: group 1, the quoted module name. */
  function ModuleNameOf(line: string): (r: Option<string>)
    ensures r.Some? ==> r.value != [] && '"' !in r.value
  {
    var i := Skip(line, 0, IsRegexSpace);
    if !MatchesAt(line, i, "attribute") then None
    else
      var j := Skip(line, i + 9, IsRegexSpace);
      if j == i + 9 || !MatchesAt(line, j, "vb_name") then None
      else
        var m := Skip(line, j + 7, IsRegexSpace);
        if !(m < |line| && line[m] == '=') then None
        else
          var q := Skip(line, m + 1, IsRegexSpace);
          if !(q < |line| && line[q] == '"') then None
          else
            var e := Skip(line, q + 1, c => c != '"');
            if e == q + 1 || e == |line| then None else Some(line[q + 1..e])
  }

  /** `(Sub|Function)\s+([A-Za-z_][A-Za-z0-9_]*)\b` at `i`: the keyword as written and the name. */
  function RoutineAt(line: string, i: nat): (r: Option<(string, string)>)
    requires i <= |line|
    ensures r.Some? ==> (EqualsIgnoreCase(r.value.0, "sub") || EqualsIgnoreCase(r.value.0, "function")) && IsIdent(r.value.1)
  {
    var n := if MatchesAt(line, i, "sub") then 3 else if MatchesAt(line, i, "function") then 8 else 0;
    if n == 0 then None
    else
      var j := Skip(line, i + n, IsRegexSpace);
      if j == i + n || j == |line| || !IsIdentStart(line[j]) then None
      else
        // the greedy identifier ends before a non-word character, so `\b` holds there
        IdentRun(line, j);
        Some((line[i..i + n], line[j..Skip(line, j + 1, IsWordChar)]))
  }

  /** Length of the modifier written at `i`, among `words`, or 0. */
  function ModifierAt(line: string, i: nat, words: seq<string>): (n: nat)
    ensures n > 0 ==> i + n <= |line|
  {
    if words == [] then 0
    else if MatchesAt(line, i, words[0]) then |words[0]|
    else ModifierAt(line, i, words[1..])
  }

  /** `^\s*(?:Public|Private|Friend)?\s*(Sub|Function)\s+([A-Za-z_][A-Za-z0-9_]*)\b`:
      groups 1 and 2. When the modifier branch fails the optional group is skipped. */
  function RoutineStartOf(line: string): (r: Option<(string, string)>)
    ensures r.Some? ==> (EqualsIgnoreCase(r.value.0, "sub") || EqualsIgnoreCase(r.value.0, "function")) && IsIdent(r.value.1)
  {
    var i := Skip(line, 0, IsRegexSpace);
    var n := ModifierAt(line, i, ["public", "private", "friend"]);
    var withModifier := if n > 0 then RoutineAt(line, Skip(line, i + n, IsRegexSpace)) else None;
    if withModifier.Some? then withModifier else RoutineAt(line, i)
  }

  /** `Sub` or `Function` (ignoring case) at `i`: the keyword's length, or 0. */
  function EndKeywordAt(line: string, i: nat): nat
  {
    if MatchesAt(line, i, "sub") then 3 else if MatchesAt(line, i, "function") then 8 else 0
  }

  /** Where `$` matches in java.util.regex without MULTILINE: at the end of
      the input, or just before a line terminator that ends it (`\r\n`
      counting as one terminator, never split between its two characters). */
  predicate AtEnd(s: string, k: nat)
  {
    k == |s|
    || (k + 1 == |s| && IsLineTerminator(s[k]) && !(s[k] == '\n' && k > 0 && s[k - 1] == '\r'))
    || (k + 2 == |s| && s[k] == '\r' && s[k + 1] == '\n')
  }

  /** The end of `s` before a final line terminator that `\s` does not
      match (U+0085, U+2028 or U+2029): where `\s*$` can still match after
      the last non-space character. */
  function BodyEnd(s: string): (z: nat)
    ensures z <= |s|
  {
    if |s| > 0 && IsLineTerminator(s[|s| - 1]) && !IsRegexSpace(s[|s| - 1]) then |s| - 1 else |s|
  }

  /** `^\s*End\s+(Sub|Function)\s*$` */
  predicate IsRoutineEnd(line: string)
  {
    var i := Skip(line, 0, IsRegexSpace);
    MatchesAt(line, i, "end") &&
    var j := Skip(line, i + 3, IsRegexSpace);
    j > i + 3 &&
    var n := EndKeywordAt(line, j);
    n > 0 && AtEnd(line, Skip(line, j + n, IsRegexSpace))
  }

  // ---------------------------------------------------------------------
  // FrmExtractor (java.util.regex, CASE_INSENSITIVE)
  // ---------------------------------------------------------------------

  /** `^\s*Begin\s+VB\.Form\s+(\w+)`: group 1, the form name. */
  function FormNameOf(line: string): (r: Option<string>)
    ensures r.Some? ==> r.value != [] && forall k :: 0 <= k < |r.value| ==> IsWordChar(r.value[k])
  {
    var i := Skip(line, 0, IsRegexSpace);
    if !MatchesAt(line, i, "begin") then None
    else
      var j := Skip(line, i + 5, IsRegexSpace);
      if j == i + 5 || !MatchesAt(line, j, "vb.form") then None
      else
        var k := Skip(line, j + 7, IsRegexSpace);
        if k == j + 7 || k == |line| || !IsWordChar(line[k]) then None
        else Some(line[k..Skip(line, k, IsWordChar)])
  }

  /** Where `(\w+)_([A-Za-z0-9_]+)` splits the word `w`: group 1 is greedy, so
      the split is the last `_` that leaves both groups non-empty. */
  function LastSplit(w: string, m: nat): (r: Option<nat>)
    requires m <= |w|
    ensures r.Some? ==> 1 <= r.value < m && r.value + 2 <= |w| && w[r.value] == '_'
    ensures r.Some? ==> forall k :: r.value < k < m && k + 2 <= |w| ==> w[k] != '_'
    ensures r.None? ==> forall k :: 1 <= k < m && k + 2 <= |w| ==> w[k] != '_'
  {
    if m <= 1 then None
    else if m + 1 <= |w| && w[m - 1] == '_' then Some(m - 1)
    else LastSplit(w, m - 1)
  }

  /** Index where the run of trailing `\s` characters of `s[k..]` begins. */
  function TrailingSpace(s: string, k: nat): (e: nat)
    requires k <= |s|
    ensures k <= e <= |s|
    ensures forall t :: e <= t < |s| ==> IsRegexSpace(s[t])
    ensures k < e ==> !IsRegexSpace(s[e - 1])
    decreases |s|
  {
    if |s| == k || !IsRegexSpace(s[|s| - 1]) then |s|
    else
      var e := TrailingSpace(s[..|s| - 1], k);
      assert forall t :: e <= t < |s| - 1 ==> s[..|s| - 1][t] == s[t];
      e
  }

  /** `.*\)\s*$` from position `k`: the last non-space character before a
      final U+0085, U+2028 or U+2029 (if any) is `)`, and no line terminator
      comes before it. */
  predicate ClosesAtEnd(s: string, k: nat)
    requires k <= |s|
  {
    var z := BodyEnd(s);
    k <= z &&
    var e := TrailingSpace(s[..z], k);
    k < e && s[e - 1] == ')' && forall t :: k <= t < e - 1 ==> !IsLineTerminator(s[t])
  }

  /** `Sub\s+(\w+)_([A-Za-z0-9_]+)\s*\(.*\)\s*$` at `i`: groups 1 and 2. */
  function EventAt(line: string, i: nat): (r: Option<(string, string)>)
    requires i <= |line|
    ensures r.Some? ==> r.value.0 != [] && r.value.1 != []
    ensures r.Some? ==> IsIdentWord(r.value.0 + "_" + r.value.1)
  {
    if !MatchesAt(line, i, "sub") then None
    else
      var j := Skip(line, i + 3, IsRegexSpace);
      var e := Skip(line, j, IsWordChar);
      if j == i + 3 then None
      else
        var w := line[j..e];
        var split := LastSplit(w, |w|);
        if split.None? then None
        else
          var p := Skip(line, e, IsRegexSpace);
          if !(p < |line| && line[p] == '(' && ClosesAtEnd(line, p + 1)) then None
          else
            assert w == w[..split.value] + "_" + w[split.value + 1..];
            Some((w[..split.value], w[split.value + 1..]))
  }

  /** A non-empty run of `\w` characters. */
  predicate IsIdentWord(w: string)
  {
    w != [] && forall k :: 0 <= k < |w| ==> IsWordChar(w[k])
  }

  /** `^\s*(?:Public|Private)?\s*Sub\s+(\w+)_([A-Za-z0-9_]+)\s*\(.*\)\s*$`: groups 1 and 2. */
  function EventStartOf(line: string): (r: Option<(string, string)>)
    ensures r.Some? ==> r.value.0 != [] && r.value.1 != []
    ensures r.Some? ==> IsIdentWord(r.value.0 + "_" + r.value.1)
  {
    var i := Skip(line, 0, IsRegexSpace);
    var n := ModifierAt(line, i, ["public", "private"]);
    var withModifier := if n > 0 then EventAt(line, Skip(line, i + n, IsRegexSpace)) else None;
    if withModifier.Some? then withModifier else EventAt(line, i)
  }

  /** `^\s*End\s+Sub\s*$` */
  predicate IsEventEnd(line: string)
  {
    var i := Skip(line, 0, IsRegexSpace);
    MatchesAt(line, i, "end") &&
    var j := Skip(line, i + 3, IsRegexSpace);
    j > i + 3 && MatchesAt(line, j, "sub") && AtEnd(line, Skip(line, j + 3, IsRegexSpace))
  }

  /** `$` also matches before a final line terminator: here U+2028, which
      `\s*` does not consume. */
  lemma EndBeforeTerminator()
    ensures IsRoutineEnd("End Sub\U{2028}")
  {
    var a := "End Sub\U{2028}";
    assert Skip(a, 0, IsRegexSpace) == 0 && Skip(a, 3, IsRegexSpace) == 4 && Skip(a, 7, IsRegexSpace) == 7;
    assert MatchesAt(a, 0, "end") && MatchesAt(a, 4, "sub");
  }

  /** The same for the event end, after trailing space: U+0085 ends the line. */
  lemma EventEndBeforeTerminator()
    ensures IsEventEnd("End Sub \U{85}")
  {
    var b := "End Sub \U{85}";
    assert Skip(b, 0, IsRegexSpace) == 0 && Skip(b, 3, IsRegexSpace) == 4 && Skip(b, 7, IsRegexSpace) == 8;
    assert MatchesAt(b, 0, "end") && MatchesAt(b, 4, "sub");
  }

  /** `$` does not match before a terminator that more text follows. */
  lemma EventEndNotBeforeInnerTerminator()
    ensures !IsEventEnd("End Sub\U{2029}\U{2029}")
  {
    var c := "End Sub\U{2029}\U{2029}";
    assert Skip(c, 0, IsRegexSpace) == 0 && Skip(c, 3, IsRegexSpace) == 4 && Skip(c, 7, IsRegexSpace) == 7;
  }

  // ---------------------------------------------------------------------
  // Call-shaped tokens and Matcher.find()
  // ---------------------------------------------------------------------

  /** One match: the captured target and the position just past the match. */
  datatype Hit = Hit(target: string, end: nat)

  /** The three patterns whose every match the extractors collect. */
  datatype Pattern =
    | CallPattern   // \b(Call\s+)?([A-Za-z_][A-Za-z0-9_]*(?:\.[A-Za-z_][A-Za-z0-9_]*)?)\s*(?:\(|$)
    | ShowPattern   // \b([A-Za-z_][A-Za-z0-9_]*)\.Show\b
    | LoadPattern   // \bLoad\s+([A-Za-z_][A-Za-z0-9_]*)\b

  /** `\s*(?:\(|$)` after the name `line[q..e]`. */
  function AfterName(line: string, q: nat, e: nat): (r: Option<Hit>)
    requires q < e <= |line|
    ensures r.Some? ==> r.value.target == line[q..e] && e <= r.value.end <= |line|
  {
    var k := Skip(line, e, IsRegexSpace);
    if k < |line| && line[k] == '(' then Some(Hit(line[q..e], k + 1))
    else if AtEnd(line, k) then Some(Hit(line[q..e], k))
    else None
  }

  /** Group 2 of the call pattern and what follows it, from `q`: the dotted
      form is tried first, then the bare identifier. */
  function CallNameAt(line: string, q: nat): (r: Option<Hit>)
    requires q <= |line|
    ensures r.Some? ==> q < r.value.end <= |line| && IsQualifiedName(r.value.target)
  {
    if q == |line| || !IsIdentStart(line[q]) then None
    else
      var e1 := Skip(line, q + 1, IsWordChar);
      IdentRun(line, q);
      var dotted :=
        if e1 + 1 < |line| && line[e1] == '.' && IsIdentStart(line[e1 + 1]) then
          var e2 := Skip(line, e1 + 2, IsWordChar);
          IdentRun(line, e1 + 1);
          DottedName(line, q, e1, e2);
          AfterName(line, q, e2)
        else None;
      if dotted.Some? then dotted else AfterName(line, q, e1)
  }

  /** Two identifiers joined by the dot at `d` form a qualified name. */
  lemma DottedName(s: string, q: nat, d: nat, e: nat)
    requires q < d < e <= |s| && s[d] == '.'
    requires IsIdent(s[q..d]) && IsIdent(s[d + 1..e])
    ensures IsQualifiedName(s[q..e])
  {
    var t := s[q..e];
    assert t[d - q] == '.' && t[..d - q] == s[q..d] && t[d - q + 1..] == s[d + 1..e];
  }

  /** The call pattern anchored at `p`: `\b`, then `Call\s+` if it leads to a
      match, otherwise the name at `p` itself. */
  function CallAt(line: string, p: nat): (r: Option<Hit>)
    requires p <= |line|
    ensures r.Some? ==> p < r.value.end <= |line| && IsQualifiedName(r.value.target)
  {
    if !(p < |line| && IsIdentStart(line[p]) && Boundary(line, p)) then None
    else
      var withKeyword :=
        if MatchesAt(line, p, "call") && p + 4 < |line| && IsRegexSpace(line[p + 4])
        then CallNameAt(line, Skip(line, p + 4, IsRegexSpace)) else None;
      if withKeyword.Some? then withKeyword else CallNameAt(line, p)
  }

  /** The show pattern anchored at `p`. */
  function ShowAt(line: string, p: nat): (r: Option<Hit>)
    requires p <= |line|
    ensures r.Some? ==> p < r.value.end <= |line| && IsIdent(r.value.target)
  {
    if !(p < |line| && IsIdentStart(line[p]) && Boundary(line, p)) then None
    else
      var e := Skip(line, p + 1, IsWordChar);
      IdentRun(line, p);
      if e < |line| && line[e] == '.' && MatchesAt(line, e + 1, "show") && Boundary(line, e + 5)
      then Some(Hit(line[p..e], e + 5))
      else None
  }

  /** The load pattern anchored at `p`. */
  function LoadAt(line: string, p: nat): (r: Option<Hit>)
    requires p <= |line|
    ensures r.Some? ==> p < r.value.end <= |line| && IsIdent(r.value.target)
  {
    if !(p < |line| && Boundary(line, p) && MatchesAt(line, p, "load")) then None
    else
      var j := Skip(line, p + 4, IsRegexSpace);
      if j == p + 4 || j == |line| || !IsIdentStart(line[j]) then None
      else
        IdentRun(line, j);
        var e := Skip(line, j + 1, IsWordChar);
        Some(Hit(line[j..e], e))
  }

  function MatchAt(pat: Pattern, line: string, p: nat): (r: Option<Hit>)
    requires p <= |line|
    ensures r.Some? ==> p < r.value.end <= |line|
  {
    match pat
    case CallPattern => CallAt(line, p)
    case ShowPattern => ShowAt(line, p)
    case LoadPattern => LoadAt(line, p)
  }

  /** Matcher.find() from position `from`: the first match at a position `>= from`. */
  function Find(pat: Pattern, line: string, from: nat): (r: Option<Hit>)
    requires from <= |line|
    ensures r.Some? ==> from < r.value.end <= |line|
    decreases |line| - from
  {
    var m := MatchAt(pat, line, from);
    if m.Some? then m
    else if from == |line| then None
    else Find(pat, line, from + 1)
  }

  /** What a match captures: a possibly qualified name for the call
      pattern, an identifier for the SHOW and LOAD patterns. */
  lemma {:induction false} FindShape(pat: Pattern, line: string, from: nat)
    requires from <= |line|
    ensures Find(pat, line, from).Some? && pat == CallPattern ==> IsQualifiedName(Find(pat, line, from).value.target)
    ensures Find(pat, line, from).Some? && pat != CallPattern ==> IsIdent(Find(pat, line, from).value.target)
    decreases |line| - from
  {
    if MatchAt(pat, line, from).None? && from < |line| {
      FindShape(pat, line, from + 1);
    }
  }

  /** The targets of `while (matcher.find())` started at `from`, in order. */
  function Targets(pat: Pattern, line: string, from: nat): seq<string>
    requires from <= |line|
    decreases |line| - from
  {
    match Find(pat, line, from)
    case None => []
    case Some(h) => [h.target] + Targets(pat, line, h.end)
  }

  /** The call pattern finds possibly qualified names; the SHOW and LOAD
      patterns find identifiers. */
  lemma {:induction false} TargetsShape(pat: Pattern, line: string, from: nat)
    requires from <= |line|
    ensures pat == CallPattern ==> forall k :: 0 <= k < |Targets(pat, line, from)| ==> IsQualifiedName(Targets(pat, line, from)[k])
    ensures pat != CallPattern ==> forall k :: 0 <= k < |Targets(pat, line, from)| ==> IsIdent(Targets(pat, line, from)[k])
    decreases |line| - from
  {
    var found := Find(pat, line, from);
    FindShape(pat, line, from);
    if found.Some? {
      TargetsShape(pat, line, found.value.end);
    }
  }

  /** One turn of `while (matcher.find())`: the first match's target, then
      the targets found from the end of that match. */
  lemma TargetsStep(pat: Pattern, line: string, from: nat)
    requires from <= |line|
    ensures Find(pat, line, from).Some? ==>
      Targets(pat, line, from) == [Find(pat, line, from).value.target] + Targets(pat, line, Find(pat, line, from).value.end)
    ensures Find(pat, line, from).None? ==> Targets(pat, line, from) == []
  {
  }

  // ---------------------------------------------------------------------
  // wiki_tools.py (Python `re`, IGNORECASE, pattern.match)
  // ---------------------------------------------------------------------

  /** `(Sub|Function|Property\s+(?:Get|Let|Set))` at `i`: the position after it, or `i`. */
  function WikiKindEnd(line: string, i: nat): (k: nat)
    requires i <= |line|
    ensures i <= k <= |line|
  {
    if MatchesAt(line, i, "sub") then i + 3
    else if MatchesAt(line, i, "function") then i + 8
    else if MatchesAt(line, i, "property") then
      var j := Skip(line, i + 8, IsPySpace);
      if j > i + 8 && (MatchesAt(line, j, "get") || MatchesAt(line, j, "let") || MatchesAt(line, j, "set"))
      then j + 3 else i
    else i
  }

  /** The kind keyword and the `[A-Za-z_][A-Za-z0-9_]*` name after it, at `i`. */
  function WikiHeaderAt(line: string, i: nat): (r: Option<(string, string)>)
    requires i <= |line|
    ensures r.Some? ==> r.value.0 != [] && IsIdent(r.value.1)
  {
    var k := WikiKindEnd(line, i);
    if k == i then None
    else
      var j := Skip(line, k, IsPySpace);
      if j == k || j == |line| || !IsIdentStart(line[j]) then None
      else
        IdentRun(line, j);
        Some((line[i..k], line[j..Skip(line, j + 1, IsWordChar)]))
  }

  /** The optional `(?:(?:Public|Private|Friend|Static)\s+)?` group at `i`:
      where the rest starts if the group is taken, or None. */
  function WikiModifierEnd(line: string, i: nat): (r: Option<nat>)
    requires i <= |line|
    ensures r.Some? ==> i < r.value <= |line|
  {
    var n := ModifierAt(line, i, ["public", "private", "friend", "static"]);
    if n == 0 then None
    else
      var j := Skip(line, i + n, IsPySpace);
      if j == i + n then None else Some(j)
  }

  /** The header pattern of get_file_structure: groups 1 (kind) and 2 (name). */
  function WikiHeaderOf(line: string): (r: Option<(string, string)>)
    ensures r.Some? ==> r.value.0 != [] && IsIdent(r.value.1)
  {
    var i := Skip(line, 0, IsPySpace);
    var m := WikiModifierEnd(line, i);
    var withModifier := if m.Some? then WikiHeaderAt(line, m.value) else None;
    if withModifier.Some? then withModifier else WikiHeaderAt(line, i)
  }

  /** The kind keyword, `\s+`, the escaped `name` and `\b`, at `i`. Because the
      name may itself begin with spaces, any split of the space run is tried. */
  predicate NamedHeaderAt(line: string, i: nat, name: string)
    requires i <= |line|
  {
    var k := WikiKindEnd(line, i);
    k > i &&
    var j := Skip(line, k, IsPySpace);
    exists t :: k < t <= j && MatchesAt(line, t, name) && Boundary(line, t + |name|)
  }

  /** The start pattern of read_function_code for `name`. */
  predicate IsNamedHeader(line: string, name: string)
  {
    var i := Skip(line, 0, IsPySpace);
    var m := WikiModifierEnd(line, i);
    (m.Some? && NamedHeaderAt(line, m.value, name)) || NamedHeaderAt(line, i, name)
  }

  /** `^\s*End\s+(Sub|Function|Property)\b` */
  predicate IsWikiEnd(line: string)
  {
    var i := Skip(line, 0, IsPySpace);
    MatchesAt(line, i, "end") &&
    var j := Skip(line, i + 3, IsPySpace);
    j > i + 3 &&
    var n := if MatchesAt(line, j, "sub") then 3
             else if MatchesAt(line, j, "function") then 8
             else if MatchesAt(line, j, "property") then 8 else 0;
    n > 0 && Boundary(line, j + n)
  }
}
