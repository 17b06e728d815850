/** MermaidRenderer: a GraphModel's edges written as a Mermaid flowchart,
    one `from -->|label| to` line per edge, with both ends reduced to
    identifier characters. */
module Mermaid {
  import opened Base
  import opened Text
  import opened Graph

  // ---------------------------------------------------------------------
  // sanitize
  // ---------------------------------------------------------------------

  /** What sanitize writes for one character. Java walks the UTF-16 code
      units of the value: a character in `[A-Za-z0-9_]` is kept, any other
      unit becomes `_`, so a character above U+FFFF, a surrogate pair of two
      non-word units, becomes `__`. */
  function SafeChar(c: char): string
  {
    if IsWordChar(c) then [c] else if Utf16Width(c) == 2 then "__" else "_"
  }

  /** The characters of `v`, each made safe, in order. */
  function SafeChars(v: string): string
  {
    if v == [] then [] else SafeChars(v[..|v| - 1]) + SafeChar(v[|v| - 1])
  }

  /** sanitize's result: "Unknown" for a null or blank value, its safe
      characters otherwise. */
  function Sanitized(value: Option<string>): string
  {
    if value.None? || IsBlank(value.value) then "Unknown" else SafeChars(value.value)
  }

  /** sanitize, with its StringBuilder loop. */
  method Sanitize(value: Option<string>) returns (r: string)
    ensures r == Sanitized(value)
  {
    if value.None? || IsBlank(value.value) {
      return "Unknown";
    }
    var v := value.value;
    r := [];
    var i := 0;
    while i < |v|
      invariant 0 <= i <= |v|
      invariant r == SafeChars(v[..i])
    {
      assert v[..i + 1][..i] == v[..i];
      var ch := v[i];
      if IsWordChar(ch) {
        r := r + [ch];
      } else if Utf16Width(ch) == 2 {
        r := r + ['_', '_'];
      } else {
        r := r + ['_'];
      }
      i := i + 1;
    }
    assert v[..|v|] == v;
  }

  /** As long as the value is in UTF-16 units, one unit written per unit read. */
  lemma {:induction false} SafeCharsShape(v: string)
    ensures |SafeChars(v)| == Utf16Length(v)
  {
    if v != [] {
      SafeCharsShape(v[..|v| - 1]);
    }
  }

  /** Sanitizing a prefix of the value writes a prefix of the result. */
  lemma {:induction false} SafeCharsPrefix(v: string, j: nat)
    requires j <= |v|
    ensures SafeChars(v[..j]) <= SafeChars(v)
    decreases |v|
  {
    if j < |v| {
      assert v[..|v| - 1][..j] == v[..j];
      SafeCharsPrefix(v[..|v| - 1], j);
    } else {
      assert v[..j] == v;
    }
  }

  /** The units of the k-th character, which start after the UTF-16 units of
      the characters before it, are replaced by that character made safe. */
  lemma SafeCharAt(v: string, k: nat)
    requires k < |v|
    ensures Utf16Length(v[..k]) + Utf16Width(v[k]) == Utf16Length(v[..k + 1]) <= |SafeChars(v)|
    ensures SafeChars(v)[Utf16Length(v[..k])..Utf16Length(v[..k + 1])] == SafeChar(v[k])
  {
    var a, b := SafeChars(v[..k]), SafeChars(v[..k + 1]);
    assert v[..k + 1][..k] == v[..k];
    assert b == a + SafeChar(v[k]);
    SafeCharsShape(v[..k]);
    SafeCharsShape(v[..k + 1]);
    SafeCharsPrefix(v, k + 1);
    assert SafeChars(v)[..|b|] == b;
  }

  /** Every character written is a word character. */
  lemma {:induction false} SafeCharsAreWord(v: string)
    ensures forall k :: 0 <= k < |SafeChars(v)| ==> IsWordChar(SafeChars(v)[k])
  {
    if v != [] {
      SafeCharsAreWord(v[..|v| - 1]);
    }
  }

  /** A run of word characters is written as it is. */
  lemma {:induction false} SafeCharsKeepsWords(v: string)
    requires forall k :: 0 <= k < |v| ==> IsWordChar(v[k])
    ensures SafeChars(v) == v
  {
    if v != [] {
      SafeCharsKeepsWords(v[..|v| - 1]);
      assert v[..|v| - 1] + [v[|v| - 1]] == v;
    }
  }

  /** Without characters above U+FFFF, UTF-16 units and characters agree. */
  lemma {:induction false} Utf16LengthOfBmp(v: string)
    requires forall k :: 0 <= k < |v| ==> Utf16Width(v[k]) == 1
    ensures Utf16Length(v) == |v|
  {
    if v != [] {
      Utf16LengthOfBmp(v[..|v| - 1]);
    }
  }

  /** A non-blank value keeps its length in UTF-16 units; the units of a
      character stay exactly when it is a word character, and otherwise each
      of its units becomes `_`. */
  lemma SanitizeKeepsWordChars(v: string, k: nat)
    requires !IsBlank(v) && k < |v|
    ensures |Sanitized(Some(v))| == Utf16Length(v)
    ensures (forall j :: 0 <= j < |v| ==> Utf16Width(v[j]) == 1) ==> |Sanitized(Some(v))| == |v|
    ensures Utf16Length(v[..k]) <= Utf16Length(v[..k + 1]) <= |Sanitized(Some(v))|
    ensures var at := Sanitized(Some(v))[Utf16Length(v[..k])..Utf16Length(v[..k + 1])];
      (at == [v[k]] <==> IsWordChar(v[k])) &&
      (!IsWordChar(v[k]) ==> |at| == Utf16Width(v[k]) && forall j :: 0 <= j < |at| ==> at[j] == '_')
  {
    SafeCharsShape(v);
    SafeCharAt(v, k);
    if forall j :: 0 <= j < |v| ==> Utf16Width(v[j]) == 1 {
      Utf16LengthOfBmp(v);
    }
  }

  /** A character above U+FFFF is a surrogate pair in Java's string, and
      each of its two units is written as `_`. */
  lemma SanitizeSurrogatePair()
    ensures Sanitized(Some("a\U{1F600}b")) == "a__b"
  {
    var v, u, a := "a\U{1F600}b", "a\U{1F600}", "a";
    assert !IsJavaWhitespace(v[0]);
    assert v[..2] == u && u[..1] == a && a[..0] == [];
    assert SafeChar('a') == "a" && SafeChar('\U{1F600}') == "__" && SafeChar('b') == "b";
    assert SafeChars(a) == "a";
    assert SafeChars(u) == "a__";
  }

  /** Whatever the value, the result is a non-empty run of word characters,
      so it can stand as a Mermaid node id. */
  lemma SanitizedIsWord(value: Option<string>)
    ensures |Sanitized(value)| > 0
    ensures forall k :: 0 <= k < |Sanitized(value)| ==> IsWordChar(Sanitized(value)[k])
  {
    if value.Some? && !IsBlank(value.value) {
      SafeCharsAreWord(value.value);
      var v := value.value;
      var k :| 0 <= k < |v| && !IsJavaWhitespace(v[k]);
      SafeCharAt(v, k);
    }
  }

  /** A non-empty run of word characters is left as it is. */
  lemma SanitizeFixesWords(v: string)
    requires |v| > 0 && forall k :: 0 <= k < |v| ==> IsWordChar(v[k])
    ensures Sanitized(Some(v)) == v
  {
    assert !IsJavaWhitespace(v[0]);
    SafeCharsKeepsWords(v);
  }

  /** Sanitizing twice is sanitizing once. */
  lemma SanitizeIdempotent(value: Option<string>)
    ensures Sanitized(Some(Sanitized(value))) == Sanitized(value)
  {
    SanitizedIsWord(value);
    SanitizeFixesWords(Sanitized(value));
  }

  // ---------------------------------------------------------------------
  // render
  // ---------------------------------------------------------------------

  const Header: string := "```mermaid\n" + "graph TD\n"

  const Footer: string := "```\n"

  /** The chart line for an arrow from `a` to `b` labelled `l`. */
  function Arrowed(a: string, l: string, b: string): string
  {
    "  " + a + " -->|" + l + "| " + b + "\n"
  }

  /** The line written for one edge. */
  function EdgeLine(e: Edge): string
  {
    Arrowed(Sanitized(Some(e.fromId)), e.relation, Sanitized(Some(e.toId)))
  }

  /** The chart up to the closing fence: the header, then one line per
      edge in the order of the edges. */
  function Chart(edges: seq<Edge>): string
  {
    if edges == [] then Header else Chart(edges[..|edges| - 1]) + EdgeLine(edges[|edges| - 1])
  }

  /** render's result for a model holding `edges`. */
  function Rendered(edges: seq<Edge>): string
  {
    Chart(edges) + Footer
  }

  /** render: the fenced chart of the model's edges; the nodes play no part. */
  method Render(model: GraphModel) returns (r: string)
    ensures r == Rendered(model.edges)
  {
    var edges := model.Edges();
    r := "```mermaid\n";
    r := r + "graph TD\n";
    for i := 0 to |edges|
      invariant r == Chart(edges[..i])
    {
      assert edges[..i + 1][..i] == edges[..i];
      var line := WriteEdge(edges[i]);
      r := r + line;
    }
    assert edges[..|edges|] == edges;
    r := r + "```\n";
  }

  /** One turn of render's loop: the appends for one edge. */
  method WriteEdge(edge: Edge) returns (line: string)
    ensures line == EdgeLine(edge)
  {
    var fromId := Sanitize(Some(edge.fromId));
    var toId := Sanitize(Some(edge.toId));
    line := "  " + fromId + " -->|" + edge.relation + "| " + toId + "\n";
  }

  /** A run of word characters holds no line break. */
  lemma WordHasNoBreak(w: string)
    requires forall k :: 0 <= k < |w| ==> IsWordChar(w[k])
    ensures Count(w, '\n') == 0
  {
    if w != [] {
      WordHasNoBreak(w[1..]);
    }
  }

  /** An arrow line ends in the only line break it holds, when neither end
      nor the label has one of its own. */
  lemma ArrowedBreaks(a: string, l: string, b: string)
    requires Count(a, '\n') == 0 && Count(l, '\n') == 0 && Count(b, '\n') == 0
    ensures Count(Arrowed(a, l, b), '\n') == 1
  {
    CountConcat("  ", a, '\n');
    CountConcat("  " + a, " -->|", '\n');
    CountConcat("  " + a + " -->|", l, '\n');
    CountConcat("  " + a + " -->|" + l, "| ", '\n');
    CountConcat("  " + a + " -->|" + l + "| ", b, '\n');
    CountConcat("  " + a + " -->|" + l + "| " + b, "\n", '\n');
  }

  /** An edge line holds exactly one line break, provided the label has
      none of its own. */
  lemma EdgeLineBreaks(e: Edge)
    requires '\n' !in e.relation
    ensures Count(EdgeLine(e), '\n') == 1
  {
    SanitizedIsWord(Some(e.fromId));
    SanitizedIsWord(Some(e.toId));
    WordHasNoBreak(Sanitized(Some(e.fromId)));
    WordHasNoBreak(Sanitized(Some(e.toId)));
    CountAbsent(e.relation, '\n');
    ArrowedBreaks(Sanitized(Some(e.fromId)), e.relation, Sanitized(Some(e.toId)));
  }

  /** A character that does not occur is counted zero times. */
  lemma {:induction false} CountAbsent(s: string, c: char)
    requires c !in s
    ensures Count(s, c) == 0
  {
    if s != [] {
      assert c !in s[1..];
      CountAbsent(s[1..], c);
    }
  }

  /** One line per edge: with labels free of line breaks, every edge adds
      exactly one line to the chart of a model without edges. */
  lemma {:induction false} ChartLineCount(edges: seq<Edge>)
    requires forall e :: e in edges ==> '\n' !in e.relation
    ensures Count(Chart(edges), '\n') == Count(Header, '\n') + |edges|
  {
    if edges != [] {
      var init := edges[..|edges| - 1];
      assert forall e :: e in init ==> e in edges;
      ChartLineCount(init);
      EdgeLineBreaks(edges[|edges| - 1]);
      CountConcat(Chart(init), EdgeLine(edges[|edges| - 1]), '\n');
    }
  }

  /** The rendered chart has one line more per edge than the chart of an
      empty model. */
  lemma RenderedLineCount(edges: seq<Edge>)
    requires forall e :: e in edges ==> '\n' !in e.relation
    ensures Count(Rendered(edges), '\n') == Count(Rendered([]), '\n') + |edges|
  {
    ChartLineCount(edges);
    CountConcat(Chart(edges), Footer, '\n');
    CountConcat(Header, Footer, '\n');
  }

  /** The edge lines alone, in the order of the edges. */
  function EdgeLines(edges: seq<Edge>): string
  {
    if edges == [] then [] else EdgeLines(edges[..|edges| - 1]) + EdgeLine(edges[|edges| - 1])
  }

  lemma {:induction false} ChartLayout(edges: seq<Edge>)
    ensures Chart(edges) == Header + EdgeLines(edges)
  {
    if edges != [] {
      var init := edges[..|edges| - 1];
      ChartLayout(init);
      Regroup(Header, EdgeLines(init), EdgeLine(edges[|edges| - 1]));
    } else {
      Regroup(Header, [], []);
    }
  }

  lemma Regroup(a: string, b: string, c: string)
    ensures a + b + c == a + (b + c)
    ensures a + [] == a
  {
  }

  /** The chart opens with the fence and `graph TD`, holds the edge lines in
      the order of the edges, and closes with the fence. */
  lemma RenderedLayout(edges: seq<Edge>)
    ensures Rendered(edges) == Header + EdgeLines(edges) + Footer
    ensures StartsWith(Rendered(edges), Header)
    ensures EndsWith(Rendered(edges), Footer)
  {
    ChartLayout(edges);
    var r := Rendered(edges);
    assert r[..|Header|] == Header;
    assert r[|r| - |Footer|..] == Footer;
  }

  // ---------------------------------------------------------------------
  // Reading a line back
  // ---------------------------------------------------------------------

  /** An edge as a reader of the chart sees it. */
  datatype Arrow = Arrow(source: string, relation: string, target: string)

  /** Reads one chart line of the form `  A -->|L| B` ending in a line break,
      where A is a run of word characters and L holds no `|`. */
  function ReadLine(line: string): Option<Arrow>
  {
    if !StartsWith(line, "  ") then None else ReadSource(line[2..])
  }

  /** The source end, then the arrow and the rest. */
  function ReadSource(rest: string): Option<Arrow>
  {
    var n := LeadingRun(rest, IsWordChar);
    if !StartsWith(rest[n..], " -->|") then None
    else match ReadLabel(rest[n..][5..])
      case None => None
      case Some(arrow) => Some(arrow.(source := rest[..n]))
  }

  /** The label up to the first `|`, then the target end. */
  function ReadLabel(labelled: string): Option<Arrow>
  {
    var m := IndexOf(labelled, '|');
    if m < 0 then None
    else match ReadTarget(labelled[m + 1..])
      case None => None
      case Some(target) => Some(Arrow([], labelled[..m], target))
  }

  /** The target end: what stands between a space and the closing line break. */
  function ReadTarget(t: string): Option<string>
  {
    if |t| < 2 || t[0] != ' ' || t[|t| - 1] != '\n' then None else Some(t[1..|t| - 1])
  }

  lemma ReadTargetOf(b: string)
    ensures ReadTarget(" " + b + "\n") == Some(b)
  {
    var t := " " + b + "\n";
    assert t[1..|t| - 1] == b;
  }

  lemma ReadLabelOf(l: string, b: string)
    requires '|' !in l
    ensures ReadLabel(l + "|" + " " + b + "\n") == Some(Arrow([], l, b))
  {
    var target := " " + b + "\n";
    var labelled := l + "|" + target;
    assert labelled == l + "|" + " " + b + "\n";
    IndexOfIs(labelled, '|', |l|);
    assert labelled[|l| + 1..] == target;
    assert labelled[..|l|] == l;
    ReadTargetOf(b);
  }

  lemma ReadSourceOf(a: string, l: string, b: string)
    requires forall k :: 0 <= k < |a| ==> IsWordChar(a[k])
    requires '|' !in l
    ensures ReadSource(a + " -->|" + l + "| " + b + "\n") == Some(Arrow(a, l, b))
  {
    var labelled := l + "|" + " " + b + "\n";
    var tail := " -->|" + labelled;
    var rest := a + tail;
    assert rest == a + " -->|" + l + "| " + b + "\n";
    assert tail[0] == ' ';
    LeadingRunOver(a, tail);
    assert rest[|a|..] == tail;
    assert tail[5..] == labelled;
    ReadLabelOf(l, b);
  }

  /** An arrow line reads back as its two ends and its label, whenever the
      source end is a run of word characters and the label holds no `|`. */
  lemma ReadArrowed(a: string, l: string, b: string)
    requires forall k :: 0 <= k < |a| ==> IsWordChar(a[k])
    requires '|' !in l
    ensures ReadLine(Arrowed(a, l, b)) == Some(Arrow(a, l, b))
  {
    var rest := a + " -->|" + l + "| " + b + "\n";
    assert Arrowed(a, l, b) == "  " + rest;
    assert ("  " + rest)[2..] == rest;
    ReadSourceOf(a, l, b);
  }

  /** The line written for an edge reads back as its two sanitized ends and
      its label, whenever the label holds no `|`. */
  lemma ReadLineInverts(e: Edge)
    requires '|' !in e.relation
    ensures ReadLine(EdgeLine(e)) == Some(Arrow(Sanitized(Some(e.fromId)), e.relation, Sanitized(Some(e.toId))))
  {
    SanitizedIsWord(Some(e.fromId));
    ReadArrowed(Sanitized(Some(e.fromId)), e.relation, Sanitized(Some(e.toId)));
  }

  /** The run of word characters at the head of `w + t` is `w`, when `t`
      starts with something else. */
  lemma {:induction false} LeadingRunOver(w: string, t: string)
    requires forall k :: 0 <= k < |w| ==> IsWordChar(w[k])
    requires t != [] && !IsWordChar(t[0])
    ensures LeadingRun(w + t, IsWordChar) == |w|
  {
    if w != [] {
      assert (w + t)[1..] == w[1..] + t;
      LeadingRunOver(w[1..], t);
    }
  }
}
