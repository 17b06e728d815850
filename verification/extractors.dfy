/** Vb6Extractor and its two implementations. RegexVb6Extractor hands a form
    to FrmExtractor and a module to BasExtractor. ProleapAstExtractor first
    makes sure the Proleap VB6 parser is on the classpath, throwing
    IllegalStateException otherwise, and then delegates to the regex
    extractor. */
module Extractors {
  import opened Base
  import opened Facts
  import BasExtractor
  import FrmExtractor

  /** The implementation of Vb6Extractor in use. `classpath` holds the class
      names Class.forName can load. */
  datatype Extractor = RegexExtractor | AstExtractor(classpath: set<string>)

  /** REQUIRED_CLASSES */
  const RequiredClasses: seq<string> := ["com.proleap.vb6.VB6Lexer", "com.proleap.vb6.VB6Parser"]

  const MissingParser: string :=
    "Proleap VB6 parser classes not found on the classpath. "
    + "Please vendor or add proleap-vb6-parser before using AST mode."

  /** The loop of ensureAstAvailable over `classes`: it throws as soon as one
      class cannot be loaded. */
  function CheckClasses(classes: seq<string>, classpath: set<string>): (r: Option<Error>)
    ensures r.None? <==> forall c :: c in classes ==> c in classpath
    ensures r.Some? ==> r.value == IllegalState(MissingParser)
  {
    if classes == [] then None
    else if classes[0] !in classpath then Some(IllegalState(MissingParser))
    else CheckClasses(classes[1..], classpath)
  }

  /** ensureAstAvailable: the exception thrown, if any. It passes exactly
      when both the lexer and the parser class can be loaded. */
  function EnsureAstAvailable(classpath: set<string>): (r: Option<Error>)
    ensures r.None? <==> "com.proleap.vb6.VB6Lexer" in classpath && "com.proleap.vb6.VB6Parser" in classpath
    ensures r.Some? ==> r.value == IllegalState(MissingParser)
  {
    CheckClasses(RequiredClasses, classpath)
  }

  /** What an extractor throws before it looks at any file. */
  function Precheck(ext: Extractor): Option<Error>
  {
    match ext
    case RegexExtractor => None
    case AstExtractor(classpath) => EnsureAstAvailable(classpath)
  }

  /** analyzeForm's outcome: the precheck's exception, else the read error,
      else the facts of the form's lines. */
  function FormResult(ext: Extractor, fs: FileSystem, frmPath: Path): Result<FrmAnalysis>
  {
    if Precheck(ext).Some? then Err(Precheck(ext).value)
    else match ReadLines(fs, frmPath)
      case Err(e) => Err(e)
      case Ok(lines) => Ok(FrmExtractor.FormFacts(lines))
  }

  /** analyzeModule's outcome, likewise. */
  function ModuleResult(ext: Extractor, fs: FileSystem, basPath: Path): Result<BasAnalysis>
  {
    if Precheck(ext).Some? then Err(Precheck(ext).value)
    else match ReadLines(fs, basPath)
      case Err(e) => Err(e)
      case Ok(lines) => Ok(BasExtractor.ModuleFacts(lines))
  }

  /** Vb6Extractor.analyzeForm, for either implementation. */
  method AnalyzeForm(ext: Extractor, fs: FileSystem, frmPath: Path) returns (r: Result<FrmAnalysis>)
    ensures r == FormResult(ext, fs, frmPath)
  {
    if ext.AstExtractor? {
      var failure := EnsureAstAvailable(ext.classpath);
      if failure.Some? {
        return Err(failure.value);
      }
    }
    r := FrmExtractor.Analyze(fs, frmPath);
  }

  /** Vb6Extractor.analyzeModule, for either implementation. */
  method AnalyzeModule(ext: Extractor, fs: FileSystem, basPath: Path) returns (r: Result<BasAnalysis>)
    ensures r == ModuleResult(ext, fs, basPath)
  {
    if ext.AstExtractor? {
      var failure := EnsureAstAvailable(ext.classpath);
      if failure.Some? {
        return Err(failure.value);
      }
    }
    r := BasExtractor.Analyze(fs, basPath);
  }

  /** Without the parser classes the AST extractor fails the same way for
      every file and every disk: it throws before reading anything. */
  lemma AstFailsBeforeReading(classpath: set<string>, fs1: FileSystem, p1: Path, fs2: FileSystem, p2: Path)
    requires "com.proleap.vb6.VB6Parser" !in classpath
    ensures FormResult(AstExtractor(classpath), fs1, p1) == Err(IllegalState(MissingParser))
    ensures ModuleResult(AstExtractor(classpath), fs2, p2) == Err(IllegalState(MissingParser))
  {
  }

  /** With the parser classes present the AST extractor gives exactly the
      regex extractor's results. */
  lemma AstDelegates(classpath: set<string>, fs: FileSystem, p: Path)
    requires "com.proleap.vb6.VB6Lexer" in classpath && "com.proleap.vb6.VB6Parser" in classpath
    ensures FormResult(AstExtractor(classpath), fs, p) == FormResult(RegexExtractor, fs, p)
    ensures ModuleResult(AstExtractor(classpath), fs, p) == ModuleResult(RegexExtractor, fs, p)
  {
  }
}
