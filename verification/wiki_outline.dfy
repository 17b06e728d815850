/** The source-reading helpers of wiki_tools.py: the comment block above a
    routine (_collect_comment_block), the outline of a file
    (get_file_structure) and the text of one routine (read_function_code).
    Their patterns are the `re` matchers of the Patterns module. */
module WikiOutline {
  import opened Base
  import opened Text
  import opened Patterns

  // ---------------------------------------------------------------------
  // _collect_comment_block
  // ---------------------------------------------------------------------

  predicate IsApostrophe(c: char) { c == '\'' }

  /** How the upward walk treats one line: a comment and its text, a blank
      line, or any other line, which ends the walk. */
  datatype LineClass = CommentLine(text: string) | BlankLine | CodeLine

  /** The walk's view of one line. An apostrophe comment loses every leading
      apostrophe, a `rem ` comment (any case) its first four characters, and
      what is left is stripped. */
  function ClassOf(line: string): LineClass
  {
    var raw := PyStrip(line);
    if StartsWith(raw, "'") then CommentLine(PyStrip(raw[LeadingRun(raw, IsApostrophe)..]))
    else if StartsWith(Lower(raw), "rem ") then CommentLine(PyStrip(raw[4..]))
    else if raw == [] then BlankLine
    else CodeLine
  }

  /** The walk's view of every line. */
  function Classes(lines: seq<string>): (cs: seq<LineClass>)
    ensures |cs| == |lines|
  {
    if lines == [] then [] else Classes(lines[..|lines| - 1]) + [ClassOf(lines[|lines| - 1])]
  }

  lemma {:induction false} ClassesAt(lines: seq<string>, k: nat)
    requires k < |lines|
    ensures Classes(lines)[k] == ClassOf(lines[k])
  {
    if k < |lines| - 1 {
      ClassesAt(lines[..|lines| - 1], k);
    }
  }

  /** The texts one line contributes. */
  function TextOf(c: LineClass): seq<string>
  {
    match c
    case CommentLine(t) => [t]
    case _ => []
  }

  /** The comment texts of lines `index`, `index - 1`, ... up to the first
      other line, in top-to-bottom order. */
  function Block(cs: seq<LineClass>, index: int): seq<string>
    requires index < |cs|
    decreases index + 1
  {
    if index < 0 then []
    else match cs[index]
      case CommentLine(t) => Block(cs, index - 1) + [t]
      case BlankLine => Block(cs, index - 1)
      case CodeLine => []
  }

  /** _collect_comment_block's result. */
  function CommentBlock(lines: seq<string>, startIndex: int): string
    requires startIndex < |lines|
  {
    PyStrip(Join(Block(Classes(lines), startIndex), "\n"))
  }

  function Reversed<T>(xs: seq<T>): seq<T>
  {
    if xs == [] then [] else Reversed(xs[1..]) + [xs[0]]
  }

  lemma {:induction false} ReversedSnoc<T>(xs: seq<T>, x: T)
    ensures Reversed(xs + [x]) == [x] + Reversed(xs)
  {
    if xs != [] {
      ReversedSnoc(xs[1..], x);
      assert (xs + [x])[1..] == xs[1..] + [x];
    }
  }

  /** _collect_comment_block: walks up from `startIndex`, then reverses the
      collected texts and joins them. `lines[startIndex]` must exist when
      `startIndex` is not negative. */
  method CollectCommentBlock(lines: seq<string>, startIndex: int) returns (r: string)
    requires startIndex < |lines|
    ensures r == CommentBlock(lines, startIndex)
  {
    var comments := WalkUp(Classes(lines), startIndex);
    comments := Reversed(comments);
    r := PyStrip(Join(comments, "\n"));
  }

  /** The `while index >= 0` loop of _collect_comment_block, over the
      walk's view of each line: comment texts are collected bottom-up, blank
      lines are passed over, and any other line ends the walk. */
  method WalkUp(cs: seq<LineClass>, startIndex: int) returns (comments: seq<string>)
    requires startIndex < |cs|
    ensures Reversed(comments) == Block(cs, startIndex)
  {
    comments := [];
    var index := startIndex;
    while index >= 0
      invariant index <= startIndex
      invariant Block(cs, startIndex) == Block(cs, index) + Reversed(comments)
      decreases index + 1
    {
      match cs[index] {
        case CommentLine(text) =>
          ReversedSnoc(comments, text);
          comments := comments + [text];
          index := index - 1;
        case BlankLine =>
          index := index - 1;
        case CodeLine =>
          break;
      }
    }
  }

  /** Nothing is collected above the first line. */
  lemma CommentBlockBeforeFirstLine(lines: seq<string>, startIndex: int)
    requires startIndex < 0
    ensures CommentBlock(lines, startIndex) == []
  {
  }

  /** The texts of a run of lines, top to bottom. */
  function Texts(run: seq<LineClass>): seq<string>
  {
    if run == [] then [] else Texts(run[..|run| - 1]) + TextOf(run[|run| - 1])
  }

  lemma TextsSnoc(run: seq<LineClass>, c: LineClass)
    ensures Texts(run + [c]) == Texts(run) + TextOf(c)
  {
    assert (run + [c])[..|run|] == run;
  }

  lemma SliceSnoc<T>(xs: seq<T>, i: nat, j: nat)
    requires i <= j < |xs|
    ensures xs[i..j] + [xs[j]] == xs[i..j + 1]
  {
  }

  /** The block is the texts of the contiguous run of comment and blank
      lines that ends at `startIndex`, read top to bottom: the walk stops at
      the first other line above it, and nothing above that line counts. */
  lemma {:induction false} BlockIsRun(cs: seq<LineClass>, top: nat, startIndex: int)
    requires top <= startIndex + 1 <= |cs|
    requires forall k :: top <= k <= startIndex ==> cs[k] != CodeLine
    requires top == 0 || cs[top - 1] == CodeLine
    ensures Block(cs, startIndex) == Texts(cs[top..startIndex + 1])
    decreases startIndex + 1 - top
  {
    if startIndex + 1 == top {
      assert cs[top..startIndex + 1] == [];
    } else {
      BlockIsRun(cs, top, startIndex - 1);
      TextsSnoc(cs[top..startIndex], cs[startIndex]);
      SliceSnoc(cs, top, startIndex);
    }
  }

  /** An apostrophe comment line gives its text after every leading
      apostrophe and the padding around it. */
  lemma ApostropheText(line: string)
    requires StartsWith(PyStrip(line), "'")
    ensures ClassOf(line) == CommentLine(PyStrip(PyStrip(line)[LeadingRun(PyStrip(line), IsApostrophe)..]))
    ensures var raw := PyStrip(line); LeadingRun(raw, IsApostrophe) < |raw| ==> raw[LeadingRun(raw, IsApostrophe)] != '\''
  {
  }

  // ---------------------------------------------------------------------
  // get_file_structure
  // ---------------------------------------------------------------------

  /** One entry of the outline: {"name", "kind", "comment"}. */
  datatype Symbol = Symbol(name: string, kind: string, comment: string)

  /** The header pattern's outcome on every line: the kind and the name it
      captures, or None. */
  function Heads(lines: seq<string>): (hs: seq<Option<(string, string)>>)
    ensures |hs| == |lines|
  {
    if lines == [] then [] else Heads(lines[..|lines| - 1]) + [WikiHeaderOf(lines[|lines| - 1])]
  }

  lemma {:induction false} HeadsAt(lines: seq<string>, k: nat)
    requires k < |lines|
    ensures Heads(lines)[k] == WikiHeaderOf(lines[k])
  {
    if k < |lines| - 1 {
      HeadsAt(lines[..|lines| - 1], k);
    }
  }

  /** The entry for a header line `k` whose pattern captured `header`:
      its name, its kind and the comment block of the line above. */
  function SymbolFor(lines: seq<string>, k: nat, header: (string, string)): Symbol
    requires k <= |lines|
  {
    Symbol(header.1, header.0, CommentBlock(lines, k - 1))
  }

  /** The entry for the header line `k`. */
  function SymbolAt(lines: seq<string>, k: nat): Symbol
    requires k < |lines| && Heads(lines)[k].Some?
  {
    SymbolFor(lines, k, Heads(lines)[k].value)
  }

  /** `f` applied to every matched position among the first `n`, in order. */
  function Gather<H, S>(hs: seq<Option<H>>, n: nat, f: (nat, H) --> S): seq<S>
    requires n <= |hs|
    requires forall k :: 0 <= k < n && hs[k].Some? ==> f.requires(k, hs[k].value)
  {
    if n == 0 then []
    else Gather(hs, n - 1, f) + (if hs[n - 1].Some? then [f(n - 1, hs[n - 1].value)] else [])
  }

  /** The entries of the first `n` lines. */
  function Outline(lines: seq<string>, n: nat): seq<Symbol>
    requires n <= |lines|
  {
    Gather(Heads(lines), n, (k: nat, header: (string, string)) requires k <= |lines| => SymbolFor(lines, k, header))
  }

  /** Each further line adds its entry, if it is a header line. */
  lemma OutlineStep(lines: seq<string>, n: nat)
    requires n < |lines|
    ensures Outline(lines, n + 1)
         == Outline(lines, n) + (if Heads(lines)[n].Some? then [SymbolAt(lines, n)] else [])
  {
  }

  /** get_file_structure's outcome. */
  function FileStructure(fs: FileSystem, filePath: Path): Result<seq<Symbol>>
  {
    if filePath !in fs.existing then Err(FileNotFound("File not found: " + filePath))
    else match ReadLines(fs, filePath)
      case Err(e) => Err(e)
      case Ok(lines) => Ok(Outline(lines, |lines|))
  }

  /** get_file_structure. */
  method GetFileStructure(fs: FileSystem, filePath: Path) returns (r: Result<seq<Symbol>>)
    ensures r == FileStructure(fs, filePath)
  {
    if filePath !in fs.existing {
      return Err(FileNotFound("File not found: " + filePath));
    }
    var read := ReadLines(fs, filePath);
    if read.Err? {
      return Err(read.error);
    }
    var lines := read.value;
    var results: seq<Symbol> := [];
    for idx := 0 to |lines|
      invariant results == Outline(lines, idx)
    {
      var found := MatchHeader(lines, idx);
      OutlineStep(lines, idx);
      if found.Some? {
        var comment := CollectCommentBlock(lines, idx - 1);
        results := results + [Symbol(found.value.1, found.value.0, comment)];
      }
    }
    r := Ok(results);
  }

  /** `pattern.match(line)` on the line at `idx`: its kind and name. */
  method MatchHeader(lines: seq<string>, idx: nat) returns (found: Option<(string, string)>)
    requires idx < |lines|
    ensures found == Heads(lines)[idx]
  {
    HeadsAt(lines, idx);
    found := WikiHeaderOf(lines[idx]);
  }

  /** The positions among the first `n` where the header pattern matched. */
  function HeaderLines<H>(hs: seq<Option<H>>, n: nat): seq<nat>
    requires n <= |hs|
  {
    if n == 0 then []
    else HeaderLines(hs, n - 1) + (if hs[n - 1].Some? then [n - 1] else [])
  }

  /** The header positions are exactly those where the pattern matched. */
  lemma {:induction false} HeaderLinesExact<H>(hs: seq<Option<H>>, n: nat)
    requires n <= |hs|
    ensures forall k: nat :: k in HeaderLines(hs, n) <==> k < n && hs[k].Some?
  {
    if n > 0 {
      HeaderLinesExact(hs, n - 1);
    }
  }

  /** ... listed in increasing order. */
  lemma {:induction false} HeaderLinesIncrease<H>(hs: seq<Option<H>>, n: nat)
    requires n <= |hs|
    ensures forall i, j :: 0 <= i < j < |HeaderLines(hs, n)| ==> HeaderLines(hs, n)[i] < HeaderLines(hs, n)[j]
  {
    if n > 0 {
      HeaderLinesIncrease(hs, n - 1);
      HeaderLinesExact(hs, n - 1);
      var prev := HeaderLines(hs, n - 1);
      assert forall i :: 0 <= i < |prev| ==> prev[i] in prev;
    }
  }

  /** Gather yields one value per matched position, in position order. */
  lemma {:induction false} GatherFollows<H, S>(hs: seq<Option<H>>, n: nat, f: (nat, H) --> S)
    requires n <= |hs|
    requires forall k :: 0 <= k < n && hs[k].Some? ==> f.requires(k, hs[k].value)
    ensures |Gather(hs, n, f)| == |HeaderLines(hs, n)|
    ensures forall j :: 0 <= j < |Gather(hs, n, f)| ==>
              HeaderLines(hs, n)[j] < n && hs[HeaderLines(hs, n)[j]].Some?
              && Gather(hs, n, f)[j] == f(HeaderLines(hs, n)[j], hs[HeaderLines(hs, n)[j]].value)
  {
    if n > 0 {
      GatherFollows(hs, n - 1, f);
    }
  }

  /** One entry per header line, in line order, each carrying the comment
      block collected from the line above its header. */
  lemma OutlineFollowsHeaders(lines: seq<string>, n: nat)
    requires n <= |lines|
    ensures |Outline(lines, n)| == |HeaderLines(Heads(lines), n)|
    ensures forall j :: 0 <= j < |Outline(lines, n)| ==>
              HeaderLines(Heads(lines), n)[j] < |lines| && Heads(lines)[HeaderLines(Heads(lines), n)[j]].Some?
              && Outline(lines, n)[j] == SymbolAt(lines, HeaderLines(Heads(lines), n)[j])
  {
    GatherFollows(Heads(lines), n, (k: nat, header: (string, string)) requires k <= |lines| => SymbolFor(lines, k, header));
  }

  // ---------------------------------------------------------------------
  // read_function_code
  // ---------------------------------------------------------------------

  /** Which lines open the routine `name` (the start pattern). */
  function Opens(lines: seq<string>, name: string): (marks: seq<bool>)
    ensures |marks| == |lines|
  {
    if lines == [] then [] else Opens(lines[..|lines| - 1], name) + [IsNamedHeader(lines[|lines| - 1], name)]
  }

  /** Which lines are `End Sub/Function/Property` lines (the end pattern). */
  function Ends(lines: seq<string>): (marks: seq<bool>)
    ensures |marks| == |lines|
  {
    if lines == [] then [] else Ends(lines[..|lines| - 1]) + [IsWikiEnd(lines[|lines| - 1])]
  }

  lemma {:induction false} OpensAt(lines: seq<string>, name: string, k: nat)
    requires k < |lines|
    ensures Opens(lines, name)[k] == IsNamedHeader(lines[k], name)
  {
    if k < |lines| - 1 {
      OpensAt(lines[..|lines| - 1], name, k);
    }
  }

  lemma {:induction false} EndsAt(lines: seq<string>, k: nat)
    requires k < |lines|
    ensures Ends(lines)[k] == IsWikiEnd(lines[k])
  {
    if k < |lines| - 1 {
      EndsAt(lines[..|lines| - 1], k);
    }
  }

  /** The first marked position from `from` on, or |marks|. */
  function First(marks: seq<bool>, from: nat): (r: nat)
    requires from <= |marks|
    ensures from <= r <= |marks|
    decreases |marks| - from
  {
    if from == |marks| then |marks|
    else if marks[from] then from
    else First(marks, from + 1)
  }

  lemma {:induction false} FirstShape(marks: seq<bool>, from: nat)
    requires from <= |marks|
    ensures from <= First(marks, from) <= |marks|
    ensures First(marks, from) < |marks| ==> marks[First(marks, from)]
    ensures forall k :: from <= k < First(marks, from) ==> !marks[k]
    decreases |marks| - from
  {
    if from < |marks| && !marks[from] {
      FirstShape(marks, from + 1);
    }
  }

  /** The captured lines: from the first line opening `name` through the
      first end line at or after it, or through the last line. */
  function Captured(lines: seq<string>, name: string): seq<string>
  {
    CapturedBy(lines, Opens(lines, name), Ends(lines))
  }

  /** The capture for given verdicts of the two patterns on each line. */
  function CapturedBy(lines: seq<string>, opens: seq<bool>, ends: seq<bool>): seq<string>
    requires |opens| == |lines| && |ends| == |lines|
  {
    var s := First(opens, 0);
    if s == |lines| then []
    else
      var e := First(ends, s);
      lines[s..if e < |lines| then e + 1 else |lines|]
  }

  /** read_function_code's outcome. */
  function FunctionCode(fs: FileSystem, filePath: Path, funcName: string): Result<string>
  {
    if filePath !in fs.existing then Err(FileNotFound("File not found: " + filePath))
    else match ReadLines(fs, filePath)
      case Err(e) => Err(e)
      case Ok(lines) =>
        if Captured(lines, funcName) == [] then Err(ValueError("Function not found: " + funcName))
        else Ok(Join(Captured(lines, funcName), "\n"))
  }

  /** read_function_code. */
  method ReadFunctionCode(fs: FileSystem, filePath: Path, funcName: string) returns (r: Result<string>)
    ensures r == FunctionCode(fs, filePath, funcName)
  {
    if filePath !in fs.existing {
      return Err(FileNotFound("File not found: " + filePath));
    }
    var read := ReadLines(fs, filePath);
    if read.Err? {
      return Err(read.error);
    }
    var lines := read.value;
    var captured := CaptureLines(lines, funcName);
    if captured == [] {
      return Err(ValueError("Function not found: " + funcName));
    }
    r := Ok(Join(captured, "\n"));
  }

  /** The loop of read_function_code, given the start and end patterns'
      verdicts on the lines. */
  method CaptureLines(lines: seq<string>, funcName: string) returns (captured: seq<string>)
    ensures captured == Captured(lines, funcName)
  {
    captured := CaptureBy(lines, Opens(lines, funcName), Ends(lines));
  }

  /** The loop with its `capturing` flag: capturing starts at the first
      opening line, and every captured line is kept until an end line,
      which is kept too. */
  method CaptureBy(lines: seq<string>, opens: seq<bool>, ends: seq<bool>) returns (captured: seq<string>)
    requires |opens| == |lines| && |ends| == |lines|
    ensures captured == CapturedBy(lines, opens, ends)
  {
    FirstShape(opens, 0);
    ghost var s := First(opens, 0);
    if s < |lines| {
      FirstShape(ends, s);
    }
    var capturing := false;
    captured := [];
    var i := 0;
    while i < |lines|
      invariant 0 <= i <= |lines|
      invariant !capturing ==> i <= s && captured == []
      invariant capturing ==> s < i <= First(ends, s) && captured == lines[s..i]
    {
      var line := lines[i];
      if !capturing && opens[i] {
        capturing := true;
      }
      if capturing {
        assert lines[s..i + 1] == lines[s..i] + [line];
        captured := captured + [line];
        if ends[i] {
          return;
        }
      }
      i := i + 1;
    }
  }

  /** What is captured, for any verdicts: a contiguous slice that opens at
      the first opening line, holds no end line before its last line, and
      stops at an end line or at the last line; nothing is captured exactly
      when no line opens. */
  lemma CapturedByShape(lines: seq<string>, opens: seq<bool>, ends: seq<bool>)
    requires |opens| == |lines| && |ends| == |lines|
    ensures CapturedBy(lines, opens, ends) == [] <==> forall k :: 0 <= k < |lines| ==> !opens[k]
    ensures var c := CapturedBy(lines, opens, ends);
            c != [] ==>
              var s := First(opens, 0);
              s + |c| <= |lines| && c == lines[s..s + |c|]
              && opens[s]
              && (forall j :: s <= j < s + |c| - 1 ==> !ends[j])
              && (ends[s + |c| - 1] || s + |c| == |lines|)
  {
    FirstShape(opens, 0);
    var s := First(opens, 0);
    if s < |lines| {
      FirstShape(ends, s);
    }
  }
}
