/** FrmExtractor: recovers a form (.frm) from its lines: the `Begin VB.Form`
    form name, the event handlers `<control>_<event>` with their 1-based
    header lines, and the SHOW, LOAD and CALL references in each handler. */
module FrmExtractor {
  import opened Base
  import opened Text
  import opened Patterns
  import opened Facts
  import opened LineScan

  /** extractCalls: nothing for a blank or `'`-comment line; otherwise the
      SHOW references, then the LOAD references, then the CALL references,
      each group in match order. */
  function FrmCallRefs(line: string): seq<Call>
  {
    var trimmed := Trim(line);
    if IsBlankOrComment(trimmed) then []
    else
      Tagged("SHOW", Targets(ShowPattern, line, 0), trimmed)
      + Tagged("LOAD", Targets(LoadPattern, line, 0), trimmed)
      + CallsFor(Targets(CallPattern, line, 0), trimmed)
  }

  /** The order of the reference kinds on a line: SHOW, LOAD, CALL. */
  function KindRank(kind: string): nat
  {
    if kind == "SHOW" then 0 else if kind == "LOAD" then 1 else 2
  }

  /** A blank or comment line has no references. Otherwise the k-th SHOW
      match and the k-th LOAD match give the k-th reference of their group,
      the CALL references are exactly the call-pattern targets other than
      `Call`, and every reference is on the trimmed line. */
  lemma FrmCallRefsSpec(line: string)
    ensures IsBlankOrComment(Trim(line)) ==> FrmCallRefs(line) == []
    ensures !IsBlankOrComment(Trim(line)) ==>
      var shows, loads := Targets(ShowPattern, line, 0), Targets(LoadPattern, line, 0);
      (forall k :: 0 <= k < |shows| ==> FrmCallRefs(line)[k] == Call("SHOW", shows[k], Trim(line))) &&
      (forall k :: 0 <= k < |loads| ==> FrmCallRefs(line)[|shows| + k] == Call("LOAD", loads[k], Trim(line))) &&
      (forall c :: c in FrmCallRefs(line)[|shows| + |loads|..] ==>
         c.kind == "CALL" && c.line == Trim(line) && IsQualifiedName(c.target) && !EqualsIgnoreCase(c.target, "Call")) &&
      (forall t :: t in Targets(CallPattern, line, 0) && !EqualsIgnoreCase(t, "Call") ==>
         Call("CALL", t, Trim(line)) in FrmCallRefs(line)[|shows| + |loads|..])
  {
    var trimmed := Trim(line);
    if !IsBlankOrComment(trimmed) {
      TargetsShape(CallPattern, line, 0);
      Groups(Targets(ShowPattern, line, 0), Targets(LoadPattern, line, 0), Targets(CallPattern, line, 0), trimmed);
    }
  }

  /** The references of a line come in the order SHOW, LOAD, CALL. */
  lemma FrmCallRefsOrder(line: string)
    ensures forall i, j :: 0 <= i < j < |FrmCallRefs(line)| ==>
      KindRank(FrmCallRefs(line)[i].kind) <= KindRank(FrmCallRefs(line)[j].kind)
  {
    var trimmed := Trim(line);
    if !IsBlankOrComment(trimmed) {
      TargetsShape(CallPattern, line, 0);
      Groups(Targets(ShowPattern, line, 0), Targets(LoadPattern, line, 0), Targets(CallPattern, line, 0), trimmed);
    }
  }

  /** The three groups of references of a line, laid end to end. */
  lemma Groups(shows: seq<string>, loads: seq<string>, targets: seq<string>, trimmed: string)
    requires forall k :: 0 <= k < |targets| ==> IsQualifiedName(targets[k])
    ensures var r := Tagged("SHOW", shows, trimmed) + Tagged("LOAD", loads, trimmed) + CallsFor(targets, trimmed);
      (forall k :: 0 <= k < |shows| ==> r[k] == Call("SHOW", shows[k], trimmed)) &&
      (forall k :: 0 <= k < |loads| ==> r[|shows| + k] == Call("LOAD", loads[k], trimmed)) &&
      (forall c :: c in r[|shows| + |loads|..] ==>
         c.kind == "CALL" && c.line == trimmed && IsQualifiedName(c.target) && !EqualsIgnoreCase(c.target, "Call")) &&
      (forall t :: t in targets && !EqualsIgnoreCase(t, "Call") ==> Call("CALL", t, trimmed) in r[|shows| + |loads|..]) &&
      (forall i, j :: 0 <= i < j < |r| ==> KindRank(r[i].kind) <= KindRank(r[j].kind))
  {
    var s, l, c := Tagged("SHOW", shows, trimmed), Tagged("LOAD", loads, trimmed), CallsFor(targets, trimmed);
    var r := s + l + c;
    TaggedAt("SHOW", shows, trimmed);
    TaggedAt("LOAD", loads, trimmed);
    CallsForKeeps(targets, trimmed);
    ThreeParts(s, l, c);
    RanksInOrder(s, l, c);
  }

  /** Where each of three sequences sits in their concatenation. */
  lemma ThreeParts<T>(s: seq<T>, l: seq<T>, c: seq<T>)
    ensures forall k :: 0 <= k < |s| ==> (s + l + c)[k] == s[k]
    ensures forall k :: 0 <= k < |l| ==> (s + l + c)[|s| + k] == l[k]
    ensures (s + l + c)[|s| + |l|..] == c
  {
  }

  /** SHOW references, then LOAD references, then CALL references are in
      rank order. */
  lemma RanksInOrder(s: seq<Call>, l: seq<Call>, c: seq<Call>)
    requires forall x :: x in s ==> x.kind == "SHOW"
    requires forall x :: x in l ==> x.kind == "LOAD"
    requires forall x :: x in c ==> x.kind == "CALL"
    ensures forall i, j :: 0 <= i < j < |s + l + c| ==> KindRank((s + l + c)[i].kind) <= KindRank((s + l + c)[j].kind)
  {
    var r := s + l + c;
    forall i | 0 <= i < |r|
      ensures KindRank(r[i].kind) == (if i < |s| then 0 else if i < |s| + |l| then 1 else 2)
    {
      if i < |s| {
        assert r[i] == s[i];
      } else if i < |s| + |l| {
        assert r[i] == l[i - |s|];
      } else {
        assert r[i] == c[i - |s| - |l|];
      }
    }
  }

  /** FrmExtractor.extractCalls: a blank or comment line has no calls; then
      the SHOW loop, the LOAD loop and the CALL loop. */
  method ExtractCalls(line: string) returns (calls: seq<Call>)
    ensures calls == FrmCallRefs(line)
  {
    var trimmed := Trim(line);
    if trimmed == [] || trimmed[0] == '\'' {
      return [];
    }
    var shows := CollectTagged(ShowPattern, "SHOW", line, trimmed);
    var loads := CollectTagged(LoadPattern, "LOAD", line, trimmed);
    var others := CollectCalls(line, trimmed);
    calls := shows + loads + others;
  }

  /** How analyze reads one line: the form name it declares, the event it
      starts (named group 1 + "_" + group 2; events have no kind), whether it
      ends an event, and its references. */
  function EventMark(line: string): Mark
  {
    var start := EventStartOf(line);
    var header := if start.None? then None else Some((start.value.0 + "_" + start.value.1, ""));
    Mark(FormNameOf(line), header, IsEventEnd(line), FrmCallRefs(line))
  }

  /** A line opens an event exactly when it matches the event-start pattern;
      the event is named `<control>_<event>`, both parts non-empty, a run of
      word characters. */
  lemma EventHeader(line: string)
    ensures EventMark(line).header.Some? <==> EventStartOf(line).Some?
    ensures EventMark(line).header.Some? ==>
      EventMark(line).header.value.0 == EventStartOf(line).value.0 + "_" + EventStartOf(line).value.1 &&
      EventStartOf(line).value.0 != [] && EventStartOf(line).value.1 != [] &&
      IsIdentWord(EventMark(line).header.value.0)
  {
  }

  /** Every line of the form, read. */
  function Marks(lines: seq<string>): (ms: seq<Mark>)
    ensures |ms| == |lines|
  {
    seq(|lines|, i requires 0 <= i < |lines| => EventMark(lines[i]))
  }

  function EventOf(b: Block): FrmEvent
  {
    FrmEvent(b.name, b.lineNumber, b.calls)
  }

  function Events(bs: seq<Block>): (es: seq<FrmEvent>)
    ensures |es| == |bs|
  {
    seq(|bs|, k requires 0 <= k < |bs| => EventOf(bs[k]))
  }

  /** What analyze returns for the lines of a form. */
  function FormFacts(lines: seq<string>): FrmAnalysis
  {
    var st := Run(Marks(lines));
    FrmAnalysis(st.title, Events(st.blocks))
  }

  /** FrmExtractor.analyze: an IOException when the file cannot be read. */
  method Analyze(fs: FileSystem, frmPath: Path) returns (r: Result<FrmAnalysis>)
    ensures r.Err? <==> ReadLines(fs, frmPath).Err?
    ensures r.Err? ==> r.error == IoError(frmPath)
    ensures r.Ok? ==> r.value == FormFacts(ReadLines(fs, frmPath).value)
  {
    var read := ReadLines(fs, frmPath);
    if read.Err? {
      return Err(read.error);
    }
    var analysis := AnalyzeLines(read.value);
    return Ok(analysis);
  }

  /** The local variables of analyze's loop: the form name found so far, the
      events emitted, and the event being read (null when none). */
  datatype Locals = Locals(formName: Option<string>, events: seq<FrmEvent>,
                           currentEvent: Option<string>, currentEventLine: nat, currentCalls: seq<Call>)

  /** The loop's variables hold the scan state `st`. */
  predicate Holds(v: Locals, st: Scan)
  {
    st.title == v.formName && Events(st.blocks) == v.events &&
    (st.open.Some? <==> v.currentEvent.Some?) &&
    (v.currentEvent.Some? ==> st.open.value == Block(v.currentEvent.value, "", v.currentEventLine, v.currentCalls))
  }

  /** The body of analyze's loop, on the line numbered `number`. */
  method AnalyzeLine(v: Locals, line: string, number: nat, ghost st: Scan) returns (w: Locals)
    requires Holds(v, st)
    ensures Holds(w, Step(st, EventMark(line), number))
  {
    w := v;
    if w.formName.None? {
      w := w.(formName := FormNameOf(line));
    }

    var eventStart := EventStartOf(line);
    if eventStart.Some? {
      w := w.(currentEvent := Some(eventStart.value.0 + "_" + eventStart.value.1),
              currentEventLine := number, currentCalls := []);
      return;
    }

    if w.currentEvent.Some? {
      if IsEventEnd(line) {
        assert Events(st.blocks + [st.open.value]) == w.events + [EventOf(st.open.value)];
        w := w.(events := w.events + [FrmEvent(w.currentEvent.value, w.currentEventLine, w.currentCalls)],
                currentEvent := None, currentCalls := []);
        return;
      }

      var calls := ExtractCalls(line);
      w := w.(currentCalls := w.currentCalls + calls);
    }
  }

  /** The loop of analyze over the decoded lines. */
  method AnalyzeLines(lines: seq<string>) returns (r: FrmAnalysis)
    ensures r == FormFacts(lines)
  {
    ghost var ms := Marks(lines);
    var v := Locals(None, [], None, 0, []);
    for i := 0 to |lines|
      invariant Holds(v, Run(ms[..i]))
    {
      RunStep(ms, i);
      assert ms[i] == EventMark(lines[i]);
      v := AnalyzeLine(v, lines[i], i + 1, Run(ms[..i]));
    }
    assert ms[..|lines|] == ms;
    r := FrmAnalysis(v.formName, v.events);
  }

  // ---------------------------------------------------------------------
  // Properties
  // ---------------------------------------------------------------------

  /** The form name comes from the first line with a `Begin VB.Form`
      header and is never overwritten; it stays null when no line has one. */
  lemma FormNameIsFirst(lines: seq<string>)
    ensures FormFacts(lines).formName.None? <==> forall i :: 0 <= i < |lines| ==> FormNameOf(lines[i]).None?
    ensures FormFacts(lines).formName.Some? ==>
      exists i :: 0 <= i < |lines| && FormFacts(lines).formName == FormNameOf(lines[i])
                  && forall j :: 0 <= j < i ==> FormNameOf(lines[j]).None?
  {
    var ms := Marks(lines);
    TitleIsFirst(ms);
    Titles(lines);
  }

  /** The title of each line is the form name it declares. */
  lemma Titles(lines: seq<string>)
    ensures forall j :: 0 <= j < |lines| ==> Marks(lines)[j].title == FormNameOf(lines[j])
  {
  }

  /** Every header read from the form names an event `<control>_<event>`. */
  lemma HeaderShapes(lines: seq<string>)
    ensures forall s :: 0 <= s < |lines| && Marks(lines)[s].header.Some? ==>
      IsIdentWord(Marks(lines)[s].header.value.0) && '_' in Marks(lines)[s].header.value.0
  {
    forall s | 0 <= s < |lines| && Marks(lines)[s].header.Some?
      ensures IsIdentWord(Marks(lines)[s].header.value.0) && '_' in Marks(lines)[s].header.value.0
    {
      EventHeader(lines[s]);
      var g := EventStartOf(lines[s]).value;
      assert (g.0 + "_" + g.1)[|g.0|] == '_';
    }
  }

  /** Every event name is a run of word characters joining the control and
      the event with `_`. */
  lemma EventNames(lines: seq<string>)
    ensures forall ev :: ev in FormFacts(lines).events ==> IsIdentWord(ev.name) && '_' in ev.name
  {
    var ms := Marks(lines);
    BlocksAreSpans(ms);
    HeaderShapes(lines);
    forall ev | ev in FormFacts(lines).events
      ensures IsIdentWord(ev.name) && '_' in ev.name
    {
      var k :| 0 <= k < |Run(ms).blocks| && ev == EventOf(Run(ms).blocks[k]);
      var b := Run(ms).blocks[k];
      assert b in Run(ms).blocks;
      var s: nat, e: nat :| s < e < |ms| && Span(ms, s, e) && b == BlockAt(ms, s, e);
      assert b.name == ms[s].header.value.0;
    }
  }

  /** The events are exactly the closed ones: each is a header followed by an
      `End Sub` line with no header or end between, carrying the references
      of exactly the lines strictly between; and every such pair yields an
      event. */
  lemma EventsAreClosed(lines: seq<string>)
    ensures forall ev :: ev in FormFacts(lines).events ==>
      exists b :: IsSpanBlock(Marks(lines), b) && ev == EventOf(b)
    ensures forall s: nat, e: nat :: Span(Marks(lines), s, e) ==>
      EventOf(BlockAt(Marks(lines), s, e)) in FormFacts(lines).events
  {
    var ms := Marks(lines);
    BlocksAreSpans(ms);
    SpansAreBlocks(ms);
    forall ev | ev in FormFacts(lines).events
      ensures exists b :: IsSpanBlock(ms, b) && ev == EventOf(b)
    {
      var k :| 0 <= k < |Run(ms).blocks| && ev == EventOf(Run(ms).blocks[k]);
      assert Run(ms).blocks[k] in Run(ms).blocks;
    }
    forall s: nat, e: nat | Span(ms, s, e)
      ensures EventOf(BlockAt(ms, s, e)) in FormFacts(lines).events
    {
      var k :| 0 <= k < |Run(ms).blocks| && Run(ms).blocks[k] == BlockAt(ms, s, e);
      assert FormFacts(lines).events[k] == EventOf(BlockAt(ms, s, e));
    }
  }

  /** Line numbers are 1-based header lines, strictly increasing. */
  lemma EventLineNumbers(lines: seq<string>)
    ensures forall k :: 0 <= k < |FormFacts(lines).events| ==>
      1 <= FormFacts(lines).events[k].lineNumber <= |lines|
    ensures forall j, k :: 0 <= j < k < |FormFacts(lines).events| ==>
      FormFacts(lines).events[j].lineNumber < FormFacts(lines).events[k].lineNumber
  {
    LineNumbersIncrease(Marks(lines));
  }

  /** An event whose header is followed by no header and no end line is still
      open at the end of the file and is dropped. */
  lemma OpenEventDropped(lines: seq<string>, s: nat)
    requires OpenFrom(Marks(lines), s)
    ensures forall ev :: ev in FormFacts(lines).events ==> ev.lineNumber != s + 1
  {
    OpenBlockDropped(Marks(lines), s);
  }
}
