/** BasExtractor: recovers a standard module (.bas) from its lines: the
    `Attribute VB_Name` module name, the Sub/Function routines with their
    1-based start lines, and the call references in each routine body. */
module BasExtractor {
  import opened Base
  import opened Text
  import opened Patterns
  import opened Facts
  import opened LineScan

  /** extractCalls: nothing for a blank or `'`-comment line; otherwise one
      CALL per match of the call pattern, in order, except the keyword `Call`. */
  function CallRefs(line: string): seq<Call>
  {
    var trimmed := Trim(line);
    if IsBlankOrComment(trimmed) then [] else CallsFor(Targets(CallPattern, line, 0), trimmed)
  }

  /** Every reference is a CALL on the trimmed line to a (possibly qualified)
      name other than `Call`, and every such name the pattern finds on a line
      that is not blank or a comment is referenced. */
  lemma CallRefsSpec(line: string)
    ensures IsBlankOrComment(Trim(line)) ==> CallRefs(line) == []
    ensures forall c :: c in CallRefs(line) ==>
      c.kind == "CALL" && c.line == Trim(line) && IsQualifiedName(c.target) && !EqualsIgnoreCase(c.target, "Call")
    ensures !IsBlankOrComment(Trim(line)) ==>
      forall t :: t in Targets(CallPattern, line, 0) && !EqualsIgnoreCase(t, "Call") ==>
        Call("CALL", t, Trim(line)) in CallRefs(line)
  {
    CallsForKeeps(Targets(CallPattern, line, 0), Trim(line));
    TargetsShape(CallPattern, line, 0);
  }

  /** BasExtractor.extractCalls: a blank or comment line has no calls. */
  method ExtractCalls(line: string) returns (calls: seq<Call>)
    ensures calls == CallRefs(line)
  {
    var trimmed := Trim(line);
    if trimmed == [] || trimmed[0] == '\'' {
      return [];
    }
    calls := CollectCalls(line, trimmed);
  }

  /** How analyze reads one line: the module name it declares, the routine
      it starts (name and upper-cased keyword), whether it ends a routine,
      and its calls. */
  function RoutineMark(line: string): Mark
  {
    var start := RoutineStartOf(line);
    var header := if start.None? then None else Some((start.value.1, Upper(start.value.0)));
    Mark(ModuleNameOf(line), header, IsRoutineEnd(line), CallRefs(line))
  }

  /** The upper-cased keyword of a routine start is SUB or FUNCTION. */
  lemma KindIsKeyword(keyword: string)
    requires EqualsIgnoreCase(keyword, "sub") || EqualsIgnoreCase(keyword, "function")
    ensures Upper(keyword) == "SUB" || Upper(keyword) == "FUNCTION"
  {
    if EqualsIgnoreCase(keyword, "sub") {
      UpperIgnoresCase(keyword, "sub");
    } else {
      UpperIgnoresCase(keyword, "function");
    }
  }

  /** A line opens a routine exactly when it matches the routine-start
      pattern; the routine is named by an identifier and its kind is SUB or
      FUNCTION. */
  lemma RoutineHeader(line: string)
    ensures RoutineMark(line).header.Some? <==> RoutineStartOf(line).Some?
    ensures RoutineMark(line).header.Some? ==>
      IsIdent(RoutineMark(line).header.value.0) &&
      (RoutineMark(line).header.value.1 == "SUB" || RoutineMark(line).header.value.1 == "FUNCTION")
  {
    var start := RoutineStartOf(line);
    if start.Some? {
      KindIsKeyword(start.value.0);
    }
  }

  /** Every line of the module, read. */
  function Marks(lines: seq<string>): (ms: seq<Mark>)
    ensures |ms| == |lines|
  {
    seq(|lines|, i requires 0 <= i < |lines| => RoutineMark(lines[i]))
  }

  function RoutineOf(b: Block): BasRoutine
  {
    BasRoutine(b.name, b.kind, b.lineNumber, b.calls)
  }

  function Routines(bs: seq<Block>): (rs: seq<BasRoutine>)
    ensures |rs| == |bs|
    ensures forall k :: 0 <= k < |bs| ==> rs[k] == RoutineOf(bs[k])
  {
    seq(|bs|, k requires 0 <= k < |bs| => RoutineOf(bs[k]))
  }

  /** What analyze returns for the lines of a module. */
  function ModuleFacts(lines: seq<string>): BasAnalysis
  {
    var st := Run(Marks(lines));
    BasAnalysis(st.title, Routines(st.blocks))
  }

  /** BasExtractor.analyze: an IOException when the file cannot be read. */
  method Analyze(fs: FileSystem, basPath: Path) returns (r: Result<BasAnalysis>)
    ensures r.Err? <==> ReadLines(fs, basPath).Err?
    ensures r.Err? ==> r.error == IoError(basPath)
    ensures r.Ok? ==> r.value == ModuleFacts(ReadLines(fs, basPath).value)
  {
    var read := ReadLines(fs, basPath);
    if read.Err? {
      return Err(read.error);
    }
    var analysis := AnalyzeLines(read.value);
    return Ok(analysis);
  }

  /** The local variables of analyze's loop: the module name found so far,
      the routines emitted, and the routine being read (null when none). */
  datatype Locals = Locals(moduleName: Option<string>, routines: seq<BasRoutine>,
                           currentRoutine: Option<string>, currentKind: string,
                           currentLine: nat, currentCalls: seq<Call>)

  /** The loop's variables hold the scan state `st`. */
  predicate Holds(v: Locals, st: Scan)
  {
    st.title == v.moduleName && Routines(st.blocks) == v.routines &&
    (st.open.Some? <==> v.currentRoutine.Some?) &&
    (v.currentRoutine.Some? ==> st.open.value == Block(v.currentRoutine.value, v.currentKind, v.currentLine, v.currentCalls))
  }

  /** The body of analyze's loop, on the line numbered `number`. */
  method AnalyzeLine(v: Locals, line: string, number: nat, ghost st: Scan) returns (w: Locals)
    requires Holds(v, st)
    ensures Holds(w, Step(st, RoutineMark(line), number))
  {
    w := v;
    if w.moduleName.None? {
      w := w.(moduleName := ModuleNameOf(line));
    }

    var routineStart := RoutineStartOf(line);
    if routineStart.Some? {
      w := w.(currentKind := Upper(routineStart.value.0), currentRoutine := Some(routineStart.value.1),
              currentLine := number, currentCalls := []);
      return;
    }

    if w.currentRoutine.Some? {
      if IsRoutineEnd(line) {
        assert Routines(st.blocks + [st.open.value]) == w.routines + [RoutineOf(st.open.value)];
        w := w.(routines := w.routines + [BasRoutine(w.currentRoutine.value, w.currentKind, w.currentLine, w.currentCalls)],
                currentRoutine := None, currentKind := "", currentCalls := []);
        return;
      }

      var calls := ExtractCalls(line);
      w := w.(currentCalls := w.currentCalls + calls);
    }
  }

  /** The loop of analyze over the decoded lines. */
  method AnalyzeLines(lines: seq<string>) returns (r: BasAnalysis)
    ensures r == ModuleFacts(lines)
  {
    ghost var ms := Marks(lines);
    var v := Locals(None, [], None, "", 0, []);
    for i := 0 to |lines|
      invariant Holds(v, Run(ms[..i]))
    {
      RunStep(ms, i);
      assert ms[i] == RoutineMark(lines[i]);
      v := AnalyzeLine(v, lines[i], i + 1, Run(ms[..i]));
    }
    assert ms[..|lines|] == ms;
    r := BasAnalysis(v.moduleName, v.routines);
  }

  // ---------------------------------------------------------------------
  // Properties
  // ---------------------------------------------------------------------

  /** The module name comes from the first line with a VB_Name attribute,
      wherever it stands, and is never overwritten; it stays null when no
      line has one. */
  lemma ModuleNameIsFirst(lines: seq<string>)
    ensures ModuleFacts(lines).moduleName.None? <==> forall i :: 0 <= i < |lines| ==> ModuleNameOf(lines[i]).None?
    ensures ModuleFacts(lines).moduleName.Some? ==>
      exists i :: 0 <= i < |lines| && ModuleFacts(lines).moduleName == ModuleNameOf(lines[i])
                  && forall j :: 0 <= j < i ==> ModuleNameOf(lines[j]).None?
  {
    var ms := Marks(lines);
    TitleIsFirst(ms);
    Titles(lines);
  }

  /** The title of each line is the module name it declares. */
  lemma Titles(lines: seq<string>)
    ensures forall j :: 0 <= j < |lines| ==> Marks(lines)[j].title == ModuleNameOf(lines[j])
  {
  }

  /** Every routine's kind is the upper-cased keyword, SUB or FUNCTION, and
      its name an identifier. */
  lemma RoutineKinds(lines: seq<string>)
    ensures forall r :: r in ModuleFacts(lines).routines ==>
      (r.kind == "SUB" || r.kind == "FUNCTION") && IsIdent(r.name)
  {
    var ms := Marks(lines);
    BlocksAreSpans(ms);
    HeaderShapes(lines);
    forall r | r in ModuleFacts(lines).routines
      ensures (r.kind == "SUB" || r.kind == "FUNCTION") && IsIdent(r.name)
    {
      var k :| 0 <= k < |Run(ms).blocks| && r == RoutineOf(Run(ms).blocks[k]);
      var b := Run(ms).blocks[k];
      assert b in Run(ms).blocks;
      var s: nat, e: nat :| s < e < |ms| && Span(ms, s, e) && b == BlockAt(ms, s, e);
      assert (b.name, b.kind) == ms[s].header.value;
    }
  }

  /** Every header read from the module is an identifier and SUB or FUNCTION. */
  lemma HeaderShapes(lines: seq<string>)
    ensures forall s :: 0 <= s < |lines| && Marks(lines)[s].header.Some? ==>
      IsIdent(Marks(lines)[s].header.value.0) &&
      (Marks(lines)[s].header.value.1 == "SUB" || Marks(lines)[s].header.value.1 == "FUNCTION")
  {
    forall s | 0 <= s < |lines| && Marks(lines)[s].header.Some?
      ensures IsIdent(Marks(lines)[s].header.value.0) &&
        (Marks(lines)[s].header.value.1 == "SUB" || Marks(lines)[s].header.value.1 == "FUNCTION")
    {
      RoutineHeader(lines[s]);
    }
  }

  /** The routines are exactly the closed ones: each is a start line followed
      by an end line (End Sub or End Function, whichever kind was opened) with
      no start or end line between, carrying the calls of exactly the lines
      strictly between; and every such pair yields a routine. */
  lemma RoutinesAreClosed(lines: seq<string>)
    ensures forall r :: r in ModuleFacts(lines).routines ==>
      exists b :: IsSpanBlock(Marks(lines), b) && r == RoutineOf(b)
    ensures forall s: nat, e: nat :: Span(Marks(lines), s, e) ==>
      RoutineOf(BlockAt(Marks(lines), s, e)) in ModuleFacts(lines).routines
  {
    var ms := Marks(lines);
    BlocksAreSpans(ms);
    SpansAreBlocks(ms);
    forall r | r in ModuleFacts(lines).routines
      ensures exists b :: IsSpanBlock(ms, b) && r == RoutineOf(b)
    {
      var k :| 0 <= k < |Run(ms).blocks| && r == RoutineOf(Run(ms).blocks[k]);
      assert Run(ms).blocks[k] in Run(ms).blocks;
    }
    forall s: nat, e: nat | Span(ms, s, e)
      ensures RoutineOf(BlockAt(ms, s, e)) in ModuleFacts(lines).routines
    {
      var k :| 0 <= k < |Run(ms).blocks| && Run(ms).blocks[k] == BlockAt(ms, s, e);
      assert ModuleFacts(lines).routines[k] == RoutineOf(BlockAt(ms, s, e));
    }
  }

  /** Line numbers are 1-based start lines, strictly increasing. */
  lemma RoutineLineNumbers(lines: seq<string>)
    ensures forall k :: 0 <= k < |ModuleFacts(lines).routines| ==>
      1 <= ModuleFacts(lines).routines[k].lineNumber <= |lines|
    ensures forall j, k :: 0 <= j < k < |ModuleFacts(lines).routines| ==>
      ModuleFacts(lines).routines[j].lineNumber < ModuleFacts(lines).routines[k].lineNumber
  {
    LineNumbersIncrease(Marks(lines));
  }

  /** A routine whose start line is followed by no start and no end line is
      still open at the end of the file and is dropped. */
  lemma OpenRoutineDropped(lines: seq<string>, s: nat)
    requires OpenFrom(Marks(lines), s)
    ensures forall r :: r in ModuleFacts(lines).routines ==> r.lineNumber != s + 1
  {
    OpenBlockDropped(Marks(lines), s);
  }
}
