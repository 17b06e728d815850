/** The facts the extractors recover and the analyzer gathers: call
    references, routines, events, per-file analyses and project summaries. */
module Facts {
  import opened Base
  import opened VbpIndex

  /** BasCall and FrmCall: a call reference of kind "CALL", "SHOW" or "LOAD",
      its target and the trimmed source line it was found on. */
  datatype Call = Call(kind: string, target: string, line: string)

  /** BasRoutine: a Sub or Function, its upper-cased kind, its 1-based start line and its calls. */
  datatype BasRoutine = BasRoutine(name: string, kind: string, lineNumber: nat, calls: seq<Call>)

  /** BasAnalysis: the module name (null when no VB_Name attribute) and the closed routines. */
  datatype BasAnalysis = BasAnalysis(moduleName: Option<string>, routines: seq<BasRoutine>)

  /** FrmEvent: an event handler `<control>_<event>`, its 1-based header line and its calls. */
  datatype FrmEvent = FrmEvent(name: string, lineNumber: nat, calls: seq<Call>)

  /** FrmAnalysis: the form name (null when no `Begin VB.Form` line) and the closed events. */
  datatype FrmAnalysis = FrmAnalysis(formName: Option<string>, events: seq<FrmEvent>)

  /** EntryStatus: a manifest entry, the path it resolves to and whether that path exists. */
  datatype EntryStatus = EntryStatus(entry: Entry, resolvedPath: Path, present: bool)

  /** ProjectSummary: what the analyzer reports for one manifest. */
  datatype ProjectSummary = ProjectSummary(
    vbpPath: Path,
    project: Project,
    entries: seq<EntryStatus>,
    forms: seq<FrmAnalysis>,
    modules: seq<BasAnalysis>)
}
