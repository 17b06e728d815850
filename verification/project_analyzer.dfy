/** ProjectAnalyzer.analyze: finds every .vbp manifest under a root, resolves
    each manifest entry against the manifest's directory, records whether it
    exists, hands existing forms and modules to the extractor and sorts what
    it gathered. */
module ProjectAnalyzer {
  import opened Base
  import opened Text
  import opened VbpIndex
  import opened Facts
  import opened Extractors
  import opened Lists

  /** ProjectAnalysis */
  datatype ProjectAnalysis = ProjectAnalysis(projects: seq<ProjectSummary>)

  /** A path whose lower-cased text ends in `.vbp`. */
  predicate IsManifest(p: Path) { EndsWith(Lower(p), ".vbp") }

  /** Path order, by the path's text. */
  function PathKey(p: Path): Option<string> { Some(p) }

  /** The manifests among the paths Files.walk yields, in sorted order. */
  function Manifests(walked: seq<Path>): seq<Path>
  {
    SortBy(Filter(walked, IsManifest), PathKey)
  }

  // ---------------------------------------------------------------------
  // One entry
  // ---------------------------------------------------------------------

  /** The status recorded for an entry of a manifest in directory `dir`. */
  function Status(fs: FileSystem, dir: Path, e: Entry): EntryStatus
  {
    var resolved := fs.resolve(dir, e.path);
    EntryStatus(e, resolved, resolved in fs.existing)
  }

  /** What the analyzer does with an entry once its status is known. */
  datatype Target = FormFile | ModuleFile | NotExtracted

  /** Only existing FORM entries named `*.frm` and existing MODULE entries
      named `*.bas` (any case, judged on the manifest's relative path) are
      extracted. */
  function TargetOf(st: EntryStatus): Target
  {
    if !st.present then NotExtracted
    else if st.entry.kind == Form && EndsWith(Lower(st.entry.path), ".frm") then FormFile
    else if st.entry.kind == Module && EndsWith(Lower(st.entry.path), ".bas") then ModuleFile
    else NotExtracted
  }

  /** The lists the entry loop appends to. */
  datatype Gathered = Gathered(entries: seq<EntryStatus>, forms: seq<FrmAnalysis>, modules: seq<BasAnalysis>)

  /** One pass of the entry loop: record the status, then extract the file if
      it qualifies; an extractor failure aborts. */
  function Visit(ext: Extractor, fs: FileSystem, g: Gathered, st: EntryStatus): Result<Gathered>
  {
    var recorded := g.(entries := g.entries + [st]);
    match TargetOf(st)
    case NotExtracted => Ok(recorded)
    case FormFile =>
      (match FormResult(ext, fs, st.resolvedPath)
       case Err(e) => Err(e)
       case Ok(f) => Ok(recorded.(forms := g.forms + [f])))
    case ModuleFile =>
      (match ModuleResult(ext, fs, st.resolvedPath)
       case Err(e) => Err(e)
       case Ok(m) => Ok(recorded.(modules := g.modules + [m])))
  }

  /** What one pass of the entry loop adds when it does not throw. */
  lemma VisitAppends(ext: Extractor, fs: FileSystem, g: Gathered, st: EntryStatus)
    requires Visit(ext, fs, g, st).Ok?
    ensures Visit(ext, fs, g, st).value.entries == g.entries + [st]
    ensures Visit(ext, fs, g, st).value.forms
         == g.forms + (if TargetOf(st) == FormFile then [FormResult(ext, fs, st.resolvedPath).value] else [])
    ensures Visit(ext, fs, g, st).value.modules
         == g.modules + (if TargetOf(st) == ModuleFile then [ModuleResult(ext, fs, st.resolvedPath).value] else [])
  {
  }

  /** The entry loop over `es`, from the first entry to the last. */
  function Gather(ext: Extractor, fs: FileSystem, dir: Path, es: seq<Entry>): Result<Gathered>
  {
    if es == [] then Ok(Gathered([], [], []))
    else match Gather(ext, fs, dir, es[..|es| - 1])
      case Err(e) => Err(e)
      case Ok(g) => Visit(ext, fs, g, Status(fs, dir, es[|es| - 1]))
  }

  // ---------------------------------------------------------------------
  // One manifest
  // ---------------------------------------------------------------------

  function FormKey(f: FrmAnalysis): Option<string> { f.formName }
  function ModuleKey(m: BasAnalysis): Option<string> { m.moduleName }
  function EntryKey(st: EntryStatus): Option<string> { Some(st.entry.path) }
  function SummaryKey(s: ProjectSummary): Option<string> { Some(s.vbpPath) }

  /** The summary of one manifest, or the exception that aborts the analysis. */
  function SummaryOf(ext: Extractor, fs: FileSystem, vbpPath: Path): Result<ProjectSummary>
  {
    match ReadLines(fs, vbpPath)
    case Err(e) => Err(e)
    case Ok(lines) =>
      var project := ProjectOf(lines);
      match Gather(ext, fs, fs.parent(vbpPath), project.entries)
      case Err(e) => Err(e)
      case Ok(g) =>
        Ok(ProjectSummary(vbpPath, project, SortBy(g.entries, EntryKey),
                          SortBy(g.forms, FormKey), SortBy(g.modules, ModuleKey)))
  }

  /** Once the entry loop has thrown, the later entries are never visited. */
  lemma {:induction false} GatherAborts(ext: Extractor, fs: FileSystem, dir: Path, es: seq<Entry>, i: nat)
    requires i <= |es| && Gather(ext, fs, dir, es[..i]).Err?
    ensures Gather(ext, fs, dir, es) == Gather(ext, fs, dir, es[..i])
    decreases |es| - i
  {
    if i < |es| {
      assert es[..i + 1][..i] == es[..i];
      GatherAborts(ext, fs, dir, es, i + 1);
    } else {
      assert es[..i] == es;
    }
  }

  /** One pass of the entry loop, on the loop's three lists. */
  method VisitEntry(ext: Extractor, fs: FileSystem, vbpDir: Path, g: Gathered, entry: Entry)
    returns (r: Result<Gathered>)
    ensures r == Visit(ext, fs, g, Status(fs, vbpDir, entry))
  {
    var resolved := fs.resolve(vbpDir, entry.path);
    var present := resolved in fs.existing;
    var recorded := g.(entries := g.entries + [EntryStatus(entry, resolved, present)]);
    if !present {
      return Ok(recorded);
    }
    if entry.kind == Form && EndsWith(Lower(entry.path), ".frm") {
      var form := AnalyzeForm(ext, fs, resolved);
      if form.Err? {
        return Err(form.error);
      }
      return Ok(recorded.(forms := g.forms + [form.value]));
    } else if entry.kind == Module && EndsWith(Lower(entry.path), ".bas") {
      var basAnalysis := AnalyzeModule(ext, fs, resolved);
      if basAnalysis.Err? {
        return Err(basAnalysis.error);
      }
      return Ok(recorded.(modules := g.modules + [basAnalysis.value]));
    }
    return Ok(recorded);
  }

  /** The entry loop of analyze for one manifest's entries. */
  method GatherEntries(ext: Extractor, fs: FileSystem, vbpDir: Path, es: seq<Entry>)
    returns (r: Result<Gathered>)
    ensures r == Gather(ext, fs, vbpDir, es)
  {
    var g := Gathered([], [], []);
    for i := 0 to |es|
      invariant Gather(ext, fs, vbpDir, es[..i]) == Ok(g)
    {
      assert es[..i + 1][..i] == es[..i];
      var next := VisitEntry(ext, fs, vbpDir, g, es[i]);
      if next.Err? {
        GatherAborts(ext, fs, vbpDir, es, i + 1);
        return next;
      }
      g := next.value;
    }
    assert es[..|es|] == es;
    return Ok(g);
  }

  /** The body of analyze's outer loop for one manifest. */
  method AnalyzeProject(ext: Extractor, fs: FileSystem, vbpPath: Path) returns (r: Result<ProjectSummary>)
    ensures r == SummaryOf(ext, fs, vbpPath)
  {
    var parsed := Parse(fs, vbpPath);
    if parsed.Err? {
      return Err(parsed.error);
    }
    var project := parsed.value;
    var gathered := GatherEntries(ext, fs, fs.parent(vbpPath), project.entries);
    if gathered.Err? {
      return Err(gathered.error);
    }
    var g := gathered.value;
    return Ok(ProjectSummary(vbpPath, project, SortBy(g.entries, EntryKey),
                             SortBy(g.forms, FormKey), SortBy(g.modules, ModuleKey)));
  }

  // ---------------------------------------------------------------------
  // Every manifest
  // ---------------------------------------------------------------------

  /** analyze's outer-loop body as a function of the manifest path. */
  function Summarizer(ext: Extractor, fs: FileSystem): Path -> Result<ProjectSummary>
  {
    vbp => SummaryOf(ext, fs, vbp)
  }

  /** The outer loop over the manifests, from the first to the last, with
      `summarize` giving each manifest's summary or exception. */
  function Summaries(summarize: Path -> Result<ProjectSummary>, vbps: seq<Path>): Result<seq<ProjectSummary>>
  {
    if vbps == [] then Ok([])
    else match Summaries(summarize, vbps[..|vbps| - 1])
      case Err(e) => Err(e)
      case Ok(done) =>
        match summarize(vbps[|vbps| - 1])
        case Err(e) => Err(e)
        case Ok(s) => Ok(done + [s])
  }

  /** One manifest more. */
  lemma SummariesStep(summarize: Path -> Result<ProjectSummary>, vbps: seq<Path>, i: nat, done: seq<ProjectSummary>)
    requires i < |vbps| && Summaries(summarize, vbps[..i]) == Ok(done)
    ensures Summaries(summarize, vbps[..i + 1])
         == match summarize(vbps[i])
            case Err(e) => Err(e)
            case Ok(s) => Ok(done + [s])
  {
    assert vbps[..i + 1][..i] == vbps[..i];
  }

  /** Once the manifest loop has thrown, the later manifests are never read. */
  lemma {:induction false} SummariesAbort(summarize: Path -> Result<ProjectSummary>, vbps: seq<Path>, i: nat)
    requires i <= |vbps| && Summaries(summarize, vbps[..i]).Err?
    ensures Summaries(summarize, vbps) == Summaries(summarize, vbps[..i])
    decreases |vbps| - i
  {
    if i < |vbps| {
      assert vbps[..i + 1][..i] == vbps[..i];
      SummariesAbort(summarize, vbps, i + 1);
    } else {
      assert vbps[..i] == vbps;
    }
  }

  /** analyze's outcome for the paths `walked` under the root. */
  function AnalysisOf(ext: Extractor, fs: FileSystem, walked: seq<Path>): Result<ProjectAnalysis>
  {
    match Summaries(Summarizer(ext, fs), Manifests(walked))
    case Err(e) => Err(e)
    case Ok(projects) => Ok(ProjectAnalysis(SortBy(projects, SummaryKey)))
  }

  /** ProjectAnalyzer.analyze(root, extractor), given the paths Files.walk
      yields under the root. */
  method Analyze(ext: Extractor, fs: FileSystem, walked: seq<Path>) returns (r: Result<ProjectAnalysis>)
    ensures r == AnalysisOf(ext, fs, walked)
  {
    var vbpFiles := Manifests(walked);
    var projects: seq<ProjectSummary> := [];
    for i := 0 to |vbpFiles|
      invariant Summaries(Summarizer(ext, fs), vbpFiles[..i]) == Ok(projects)
    {
      var summary := AnalyzeProject(ext, fs, vbpFiles[i]);
      SummariesStep(Summarizer(ext, fs), vbpFiles, i, projects);
      if summary.Err? {
        SummariesAbort(Summarizer(ext, fs), vbpFiles, i + 1);
        return Err(summary.error);
      }
      projects := projects + [summary.value];
    }
    assert vbpFiles[..|vbpFiles|] == vbpFiles;
    return Ok(ProjectAnalysis(SortBy(projects, SummaryKey)));
  }

  // ---------------------------------------------------------------------
  // Properties
  // ---------------------------------------------------------------------

  /** The manifests are exactly the walked paths ending in `.vbp` (any
      case), in path order. */
  lemma ManifestsAreVbpFiles(walked: seq<Path>)
    ensures forall p :: p in Manifests(walked) <==> p in walked && IsManifest(p)
    ensures SortedBy(Manifests(walked), PathKey)
  {
    var kept := Filter(walked, IsManifest);
    SortByMembers(kept, PathKey);
    SortBySorted(kept, PathKey);
    forall p
      ensures p in Manifests(walked) <==> p in walked && IsManifest(p)
    {
      FilterMembers(walked, IsManifest, p);
    }
  }

  /** The entry loop records exactly one status per manifest entry, in
      manifest order, whether or not the entry's file exists. */
  lemma {:induction false} GatherRecordsEveryEntry(ext: Extractor, fs: FileSystem, dir: Path, es: seq<Entry>)
    requires Gather(ext, fs, dir, es).Ok?
    ensures |Gather(ext, fs, dir, es).value.entries| == |es|
    ensures forall i :: 0 <= i < |es| ==> Gather(ext, fs, dir, es).value.entries[i] == Status(fs, dir, es[i])
  {
    if es != [] {
      var init := es[..|es| - 1];
      GatherRecordsEveryEntry(ext, fs, dir, init);
      VisitAppends(ext, fs, Gather(ext, fs, dir, init).value, Status(fs, dir, es[|es| - 1]));
    }
  }

  predicate IsFormFile(st: EntryStatus) { TargetOf(st) == FormFile }
  predicate IsModuleFile(st: EntryStatus) { TargetOf(st) == ModuleFile }

  /** Every form extracted belongs to an existing FORM entry whose manifest
      path ends in `.frm`, and every module to an existing MODULE entry
      ending in `.bas`; a CLASS entry is never extracted. */
  lemma ExtractedEntries(st: EntryStatus)
    ensures IsFormFile(st) <==> st.present && st.entry.kind == Form && EndsWith(Lower(st.entry.path), ".frm")
    ensures IsModuleFile(st) <==> st.present && st.entry.kind == Module && EndsWith(Lower(st.entry.path), ".bas")
    ensures st.entry.kind == Class ==> !IsFormFile(st) && !IsModuleFile(st)
  {
  }

  /** The forms gathered are the extractor's results for the qualifying
      entries, in entry order; the modules likewise. */
  lemma GatherExtractsQualifying(ext: Extractor, fs: FileSystem, dir: Path, es: seq<Entry>)
    requires Gather(ext, fs, dir, es).Ok?
    ensures var g := Gather(ext, fs, dir, es).value;
      |g.forms| == |Filter(g.entries, IsFormFile)| &&
      forall i :: 0 <= i < |g.forms| ==> FormResult(ext, fs, Filter(g.entries, IsFormFile)[i].resolvedPath) == Ok(g.forms[i])
    ensures var g := Gather(ext, fs, dir, es).value;
      |g.modules| == |Filter(g.entries, IsModuleFile)| &&
      forall i :: 0 <= i < |g.modules| ==> ModuleResult(ext, fs, Filter(g.entries, IsModuleFile)[i].resolvedPath) == Ok(g.modules[i])
  {
    GatherExtractsForms(ext, fs, dir, es);
    GatherExtractsModules(ext, fs, dir, es);
  }

  lemma {:induction false} GatherExtractsForms(ext: Extractor, fs: FileSystem, dir: Path, es: seq<Entry>)
    requires Gather(ext, fs, dir, es).Ok?
    ensures var g := Gather(ext, fs, dir, es).value;
      PairsWithKept(g.entries, IsFormFile, g.forms, (s: EntryStatus, x: FrmAnalysis) => FormResult(ext, fs, s.resolvedPath) == Ok(x))
  {
    if es != [] {
      var init := es[..|es| - 1];
      GatherExtractsForms(ext, fs, dir, init);
      var g0 := Gather(ext, fs, dir, init).value;
      var st := Status(fs, dir, es[|es| - 1]);
      VisitAppends(ext, fs, g0, st);
      PairsWithKeptStep(g0.entries, IsFormFile, g0.forms, (s: EntryStatus, x: FrmAnalysis) => FormResult(ext, fs, s.resolvedPath) == Ok(x),
                        st, if IsFormFile(st) then [FormResult(ext, fs, st.resolvedPath).value] else []);
    }
  }

  lemma {:induction false} GatherExtractsModules(ext: Extractor, fs: FileSystem, dir: Path, es: seq<Entry>)
    requires Gather(ext, fs, dir, es).Ok?
    ensures var g := Gather(ext, fs, dir, es).value;
      PairsWithKept(g.entries, IsModuleFile, g.modules, (s: EntryStatus, x: BasAnalysis) => ModuleResult(ext, fs, s.resolvedPath) == Ok(x))
  {
    if es != [] {
      var init := es[..|es| - 1];
      GatherExtractsModules(ext, fs, dir, init);
      var g0 := Gather(ext, fs, dir, init).value;
      var st := Status(fs, dir, es[|es| - 1]);
      VisitAppends(ext, fs, g0, st);
      PairsWithKeptStep(g0.entries, IsModuleFile, g0.modules, (s: EntryStatus, x: BasAnalysis) => ModuleResult(ext, fs, s.resolvedPath) == Ok(x),
                        st, if IsModuleFile(st) then [ModuleResult(ext, fs, st.resolvedPath).value] else []);
    }
  }

  /** How many of `es` are of kind `kind`. */
  function CountKind(es: seq<Entry>, kind: EntryType): nat
  {
    if es == [] then 0
    else CountKind(es[..|es| - 1], kind) + (if es[|es| - 1].kind == kind then 1 else 0)
  }

  /** At most one form per FORM entry and one module per MODULE entry. */
  lemma {:induction false} GatherCounts(ext: Extractor, fs: FileSystem, dir: Path, es: seq<Entry>)
    requires Gather(ext, fs, dir, es).Ok?
    ensures |Gather(ext, fs, dir, es).value.forms| <= CountKind(es, Form)
    ensures |Gather(ext, fs, dir, es).value.modules| <= CountKind(es, Module)
  {
    if es != [] {
      var init := es[..|es| - 1];
      GatherCounts(ext, fs, dir, init);
      VisitAppends(ext, fs, Gather(ext, fs, dir, init).value, Status(fs, dir, es[|es| - 1]));
    }
  }

  /** Whether handing `st` to the extractor, if it qualifies, succeeds. */
  predicate Extracts(ext: Extractor, fs: FileSystem, st: EntryStatus)
  {
    match TargetOf(st)
    case FormFile => FormResult(ext, fs, st.resolvedPath).Ok?
    case ModuleFile => ModuleResult(ext, fs, st.resolvedPath).Ok?
    case NotExtracted => true
  }

  /** The entry loop completes exactly when no extraction fails: a failure
      is not caught and aborts the manifest. */
  lemma {:induction false} GatherSucceeds(ext: Extractor, fs: FileSystem, dir: Path, es: seq<Entry>)
    ensures Gather(ext, fs, dir, es).Ok? <==> forall i :: 0 <= i < |es| ==> Extracts(ext, fs, Status(fs, dir, es[i]))
  {
    if es != [] {
      var init := es[..|es| - 1];
      GatherSucceeds(ext, fs, dir, init);
      assert forall i :: 0 <= i < |init| ==> init[i] == es[i];
    }
  }

  /** What a manifest's summary holds: the parsed project; one status per
      entry, sorted by manifest path; the forms sorted by form name and the
      modules by module name, nulls last, at most one per entry of that kind. */
  lemma SummaryFacts(ext: Extractor, fs: FileSystem, vbpPath: Path)
    requires SummaryOf(ext, fs, vbpPath).Ok?
    ensures var s := SummaryOf(ext, fs, vbpPath).value;
      s.vbpPath == vbpPath && s.project == ProjectOf(fs.contents[vbpPath]) &&
      |s.entries| == |s.project.entries| &&
      (forall i :: 0 <= i < |s.project.entries| ==> Status(fs, fs.parent(vbpPath), s.project.entries[i]) in s.entries) &&
      multiset(s.entries) == multiset(Statuses(fs, fs.parent(vbpPath), s.project.entries)) &&
      SortedBy(s.entries, EntryKey) && SortedBy(s.forms, FormKey) && SortedBy(s.modules, ModuleKey) &&
      |s.forms| <= CountKind(s.project.entries, Form) &&
      |s.modules| <= CountKind(s.project.entries, Module)
  {
    var s := SummaryOf(ext, fs, vbpPath).value;
    var dir := fs.parent(vbpPath);
    var g := Gather(ext, fs, dir, s.project.entries).value;
    GatherRecordsEveryEntry(ext, fs, dir, s.project.entries);
    GatherCounts(ext, fs, dir, s.project.entries);
    SortBySorted(g.entries, EntryKey);
    SortBySorted(g.forms, FormKey);
    SortBySorted(g.modules, ModuleKey);
    SortByMembers(g.entries, EntryKey);
    SortByPermutes(g.entries, EntryKey);
    assert g.entries == Statuses(fs, dir, s.project.entries);
  }

  /** The status of every entry, in entry order. */
  function Statuses(fs: FileSystem, dir: Path, es: seq<Entry>): (r: seq<EntryStatus>)
    ensures |r| == |es| && forall i :: 0 <= i < |es| ==> r[i] == Status(fs, dir, es[i])
  {
    seq(|es|, i requires 0 <= i < |es| => Status(fs, dir, es[i]))
  }

  /** A form that came from a qualifying status came from one of the
      gathered statuses, and the file it was read from exists. */
  lemma FormsFromEntries(ext: Extractor, fs: FileSystem, g: Gathered)
    requires |g.forms| == |Filter(g.entries, IsFormFile)|
    requires forall i :: 0 <= i < |g.forms| ==> FormResult(ext, fs, Filter(g.entries, IsFormFile)[i].resolvedPath) == Ok(g.forms[i])
    ensures forall f :: f in g.forms ==>
      exists st :: st in g.entries && IsFormFile(st) && st.resolvedPath in fs.existing &&
                   FormResult(ext, fs, st.resolvedPath) == Ok(f)
  {
    forall f | f in g.forms
      ensures exists st :: st in g.entries && IsFormFile(st) && st.resolvedPath in fs.existing &&
                           FormResult(ext, fs, st.resolvedPath) == Ok(f)
    {
      var i :| 0 <= i < |g.forms| && g.forms[i] == f;
      var st := Filter(g.entries, IsFormFile)[i];
      FilterMembers(g.entries, IsFormFile, st);
    }
  }

  /** Every form in a summary is the extractor's result for an existing FORM
      entry of that manifest whose path ends in `.frm`. */
  lemma SummaryFormsExtracted(ext: Extractor, fs: FileSystem, vbpPath: Path)
    requires SummaryOf(ext, fs, vbpPath).Ok?
    ensures var s := SummaryOf(ext, fs, vbpPath).value;
      forall f :: f in s.forms ==>
        exists st :: st in s.entries && IsFormFile(st) && st.resolvedPath in fs.existing &&
                     FormResult(ext, fs, st.resolvedPath) == Ok(f)
  {
    var s := SummaryOf(ext, fs, vbpPath).value;
    var g := Gather(ext, fs, fs.parent(vbpPath), s.project.entries).value;
    GatherExtractsQualifying(ext, fs, fs.parent(vbpPath), s.project.entries);
    FormsFromEntries(ext, fs, g);
    SortByMembers(g.entries, EntryKey);
    SortByMembers(g.forms, FormKey);
  }

  /** The manifest loop completes with one summary per manifest, in order. */
  lemma {:induction false} SummariesPerManifest(summarize: Path -> Result<ProjectSummary>, vbps: seq<Path>)
    requires Summaries(summarize, vbps).Ok?
    ensures |Summaries(summarize, vbps).value| == |vbps|
    ensures forall i :: 0 <= i < |vbps| ==> summarize(vbps[i]) == Ok(Summaries(summarize, vbps).value[i])
  {
    if vbps != [] {
      SummariesPerManifest(summarize, vbps[..|vbps| - 1]);
    }
  }

  /** The analysis completes exactly when every manifest's summary does. */
  lemma {:induction false} SummariesSucceed(summarize: Path -> Result<ProjectSummary>, vbps: seq<Path>)
    ensures Summaries(summarize, vbps).Ok? <==> forall i :: 0 <= i < |vbps| ==> summarize(vbps[i]).Ok?
  {
    if vbps != [] {
      var init := vbps[..|vbps| - 1];
      SummariesSucceed(summarize, init);
      assert forall i :: 0 <= i < |init| ==> init[i] == vbps[i];
    }
  }

  /** analyze reports one project per manifest under the root, sorted by
      manifest path, each the summary of that manifest. */
  lemma AnalysisFacts(ext: Extractor, fs: FileSystem, walked: seq<Path>)
    requires AnalysisOf(ext, fs, walked).Ok?
    ensures var ps := AnalysisOf(ext, fs, walked).value.projects;
      |ps| == |Manifests(walked)| && SortedBy(ps, SummaryKey) &&
      forall s :: s in ps ==> s.vbpPath in walked && IsManifest(s.vbpPath) && SummaryOf(ext, fs, s.vbpPath) == Ok(s)
  {
    var vbps := Manifests(walked);
    var done := Summaries(Summarizer(ext, fs), vbps).value;
    SummariesPerManifest(Summarizer(ext, fs), vbps);
    ManifestsAreVbpFiles(walked);
    SortBySorted(done, SummaryKey);
    SortByMembers(done, SummaryKey);
    forall s | s in SortBy(done, SummaryKey)
      ensures s.vbpPath in walked && IsManifest(s.vbpPath) && SummaryOf(ext, fs, s.vbpPath) == Ok(s)
    {
      var i :| 0 <= i < |done| && done[i] == s;
      SummaryFacts(ext, fs, vbps[i]);
    }
  }
}
