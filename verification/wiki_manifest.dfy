/** The project-level helpers of wiki_tools.py: the files a `.vbp` refers to
    (get_project_file_list), the projects under a directory
    (get_all_projects) and the map from projects to files and from files back
    to projects (build_project_structure). */
module WikiManifest {
  import opened Base
  import opened Text
  import opened Lists

  // ---------------------------------------------------------------------
  // get_project_file_list
  // ---------------------------------------------------------------------

  /** VBP_REFERENCE_PREFIXES */
  const ReferencePrefixes: seq<string> := ["Form=", "Module=", "Class=", "UserControl=", "Designer="]

  /** `s.startswith(prefixes)` for a tuple of prefixes. */
  predicate StartsWithAny(s: string, prefixes: seq<string>)
  {
    prefixes != [] && (StartsWith(s, prefixes[0]) || StartsWithAny(s, prefixes[1..]))
  }

  lemma {:induction false} StartsWithAnyOf(s: string, prefixes: seq<string>, p: string)
    requires p in prefixes && StartsWith(s, p)
    ensures StartsWithAny(s, prefixes)
  {
    if prefixes[0] != p {
      StartsWithAnyOf(s, prefixes[1..], p);
    }
  }

  /** A text starting with one of the prefixes holds `c` when each of them does. */
  lemma {:induction false} StartsWithAnyHolds(s: string, prefixes: seq<string>, c: char)
    requires forall p :: p in prefixes ==> c in p
    requires StartsWithAny(s, prefixes)
    ensures c in s
  {
    if StartsWith(s, prefixes[0]) {
      var k := IndexOf(prefixes[0], c);
      assert s[..|prefixes[0]|][k] == c;
    } else {
      StartsWithAnyHolds(s, prefixes[1..], c);
    }
  }

  /** Every reference prefix is a key and its `=`, and nothing else. */
  lemma PrefixShape(p: string)
    requires p in ReferencePrefixes
    ensures |p| > 1 && p[|p| - 1] == '=' && '=' !in p[..|p| - 1]
    ensures p[0] != '\'' && !IsPySpace(p[0]) && ';' !in p
  {
  }

  /** A line starting with a reference prefix holds `=`, so splitting it at
      the first `=` cannot fail. */
  lemma ReferenceHoldsEquals(s: string)
    requires StartsWithAny(s, ReferencePrefixes)
    ensures '=' in s
  {
    forall p | p in ReferencePrefixes
      ensures '=' in p
    {
      PrefixShape(p);
      assert p[|p| - 1] == '=';
    }
    StartsWithAnyHolds(s, ReferencePrefixes, '=');
  }

  /** The text after the first `c`: the second half of `s.split(c, 1)`
      when `s` holds `c`. */
  function After(s: string, c: char): (r: string)
    ensures c in s ==> |r| < |s|
  {
    s[IndexOf(s, c) + 1..]
  }

  /** The file reference a line of the `.vbp` contributes, if any: the line
      is stripped; blank lines and `'` comments are skipped; it must start
      with one of the prefixes (case-sensitive), and what follows its first
      `=` is the value. */
  function ReferenceOf(line: string): Option<string>
  {
    var stripped := PyStrip(line);
    if stripped == [] || StartsWith(stripped, "'") then None
    else if !StartsWithAny(stripped, ReferencePrefixes) then None
    else ReferenceIn(After(stripped, '='))
  }

  /** The reference in a value: what follows its first `;` when there is
      one, else the whole value, stripped; an empty reference is none. */
  function ReferenceIn(value: string): Option<string>
  {
    var fileRef := PyStrip(if ';' in value then After(value, ';') else value);
    if fileRef == [] then None else Some(fileRef)
  }

  /** One turn of get_project_file_list's loop, on the line at `i`, before
      the append. */
  method ReadReference(lines: seq<string>, i: nat) returns (fileRef: Option<string>)
    requires i < |lines|
    ensures fileRef == Refs(lines)[i]
  {
    RefsAt(lines, i);
    var stripped := PyStrip(lines[i]);
    if stripped == [] || StartsWith(stripped, "'") {
      return None;
    }
    if !StartsWithAny(stripped, ReferencePrefixes) {
      return None;
    }
    var value := After(stripped, '=');
    var text := value;
    if ';' in value {
      text := After(value, ';');
    }
    text := PyStrip(text);
    fileRef := if text != [] then Some(text) else None;
  }

  /** A line whose stripped text starts with a prefix has as its value
      everything after the prefix, which may itself hold `=`. */
  lemma ReferenceOfPrefixed(line: string, p: string)
    requires p in ReferencePrefixes && StartsWith(PyStrip(line), p)
    ensures ReferenceOf(line) == ReferenceIn(PyStrip(line)[|p|..])
  {
    PrefixShape(p);
    StartsWithAnyOf(PyStrip(line), ReferencePrefixes, p);
    ReferenceOfKey(line, p);
  }

  /** The same for any key ending in its only `=`, once the line is known
      to start with a reference prefix. */
  lemma ReferenceOfKey(line: string, p: string)
    requires StartsWithAny(PyStrip(line), ReferencePrefixes)
    requires |p| > 1 && p[|p| - 1] == '=' && '=' !in p[..|p| - 1] && p[0] != '\''
    requires StartsWith(PyStrip(line), p)
    ensures ReferenceOf(line) == ReferenceIn(PyStrip(line)[|p|..])
  {
    AfterKey(PyStrip(line), p);
  }

  /** A text that starts with a key ending in its only `=` is no comment,
      and its value is what follows the key. */
  lemma AfterKey(s: string, p: string)
    requires |p| > 1 && p[|p| - 1] == '=' && '=' !in p[..|p| - 1] && p[0] != '\''
    requires StartsWith(s, p)
    ensures s != [] && !StartsWith(s, "'")
    ensures After(s, '=') == s[|p|..]
  {
    assert s[..|p|][|p| - 1] == '=';
    assert forall k :: 0 <= k < |p| - 1 ==> s[k] == p[..|p| - 1][k];
    IndexOfIs(s, '=', |p| - 1);
    assert s[..|p|][0] == p[0];
  }

  /** A reference line that names its file after a `;`, as
      `Form=Name; path`, gives the stripped text after the first `;`. */
  lemma ReferenceAfterSemicolon(line: string, p: string, name: string, file: string)
    requires p in ReferencePrefixes && ';' !in name
    requires PyStrip(line) == p + name + ";" + file
    ensures ReferenceOf(line) == if PyStrip(file) == [] then None else Some(PyStrip(file))
  {
    Split4(p, name, ";", file);
    ReferenceOfPrefixed(line, p);
    ReferenceInSplit(name, file);
  }

  /** Where the first part of a concatenation ends. */
  lemma Split4<T>(a: seq<T>, b: seq<T>, c: seq<T>, d: seq<T>)
    ensures (a + b + c + d)[..|a|] == a
    ensures (a + b + c + d)[|a|..] == b + c + d
  {
  }

  lemma ReferenceInSplit(name: string, file: string)
    requires ';' !in name
    ensures ReferenceIn(name + ";" + file) == if PyStrip(file) == [] then None else Some(PyStrip(file))
  {
    var value := name + ";" + file;
    IndexOfIs(value, ';', |name|);
    assert value[|name| + 1..] == file;
  }

  /** A reference line without `;`, as `Module=path`, gives its stripped
      value. */
  lemma ReferenceWithoutSemicolon(line: string, p: string, value: string)
    requires p in ReferencePrefixes && ';' !in value
    requires PyStrip(line) == p + value
    ensures ReferenceOf(line) == if PyStrip(value) == [] then None else Some(PyStrip(value))
  {
    var s := PyStrip(line);
    assert s[..|p|] == p;
    ReferenceOfPrefixed(line, p);
    assert s[|p|..] == value;
  }

  /** Only lines starting with a prefix contribute. */
  lemma ReferenceNeedsPrefix(line: string)
    requires ReferenceOf(line).Some?
    ensures StartsWithAny(PyStrip(line), ReferencePrefixes)
    ensures ReferenceOf(line).value != [] && ReferenceOf(line).value == PyStrip(ReferenceOf(line).value)
  {
    var r := ReferenceOf(line).value;
    assert r != [];
    StripOfStripped(r);
  }

  /** A stripped text is its own strip. */
  lemma StripOfStripped(r: string)
    requires r != [] && !IsPySpace(r[0]) && !IsPySpace(r[|r| - 1])
    ensures PyStrip(r) == r
  {
    StripBetween(r, IsPySpace, 0, |r|);
  }

  /** The reference each line contributes. */
  function Refs(lines: seq<string>): (refs: seq<Option<string>>)
    ensures |refs| == |lines|
  {
    if lines == [] then [] else Refs(lines[..|lines| - 1]) + [ReferenceOf(lines[|lines| - 1])]
  }

  lemma {:induction false} RefsAt(lines: seq<string>, k: nat)
    requires k < |lines|
    ensures Refs(lines)[k] == ReferenceOf(lines[k])
  {
    if k < |lines| - 1 {
      RefsAt(lines[..|lines| - 1], k);
    }
  }

  lemma {:induction false} RefsAppend(a: seq<string>, b: seq<string>)
    ensures Refs(a + b) == Refs(a) + Refs(b)
    decreases |b|
  {
    if b == [] {
      assert a + b == a;
    } else {
      var init := b[..|b| - 1];
      assert (a + b)[..|a + b| - 1] == a + init;
      RefsAppend(a, init);
    }
  }

  /** The references present, each resolved against `dir`, in order. */
  function Resolved(fs: FileSystem, dir: Path, refs: seq<Option<string>>): seq<Path>
  {
    if refs == [] then []
    else Resolved(fs, dir, refs[..|refs| - 1])
         + match refs[|refs| - 1]
           case None => []
           case Some(fileRef) => [fs.resolve(dir, fileRef)]
  }

  lemma ResolvedStep(fs: FileSystem, dir: Path, refs: seq<Option<string>>, i: nat)
    requires i < |refs|
    ensures Resolved(fs, dir, refs[..i + 1])
         == Resolved(fs, dir, refs[..i]) + if refs[i].Some? then [fs.resolve(dir, refs[i].value)] else []
  {
    assert refs[..i + 1][..i] == refs[..i];
  }

  /** The files listed for the lines of the `.vbp` at `vbp`, each reference
      resolved against the `.vbp`'s directory, in line order. */
  function FileList(fs: FileSystem, vbp: Path, lines: seq<string>): seq<Path>
  {
    Resolved(fs, fs.parent(vbp), Refs(lines))
  }

  /** get_project_file_list's outcome. */
  function ProjectFileList(fs: FileSystem, vbp: Path): Result<seq<Path>>
  {
    if vbp !in fs.existing then Err(FileNotFound("VBP not found: " + vbp))
    else match ReadLines(fs, vbp)
      case Err(e) => Err(e)
      case Ok(lines) => Ok(FileList(fs, vbp, lines))
  }

  /** get_project_file_list. */
  method GetProjectFileList(fs: FileSystem, vbpPath: Path) returns (r: Result<seq<Path>>)
    ensures r == ProjectFileList(fs, vbpPath)
  {
    if vbpPath !in fs.existing {
      return Err(FileNotFound("VBP not found: " + vbpPath));
    }
    var read := ReadLines(fs, vbpPath);
    if read.Err? {
      return Err(read.error);
    }
    var files := ListFiles(fs, vbpPath, read.value);
    r := Ok(files);
  }

  /** The loop of get_project_file_list over the lines of the `.vbp`. */
  method ListFiles(fs: FileSystem, vbpPath: Path, lines: seq<string>) returns (files: seq<Path>)
    ensures files == FileList(fs, vbpPath, lines)
  {
    ghost var refs := Refs(lines);
    files := [];
    for i := 0 to |lines|
      invariant files == Resolved(fs, fs.parent(vbpPath), refs[..i])
    {
      var fileRef := ReadReference(lines, i);
      ResolvedStep(fs, fs.parent(vbpPath), refs, i);
      if fileRef.Some? {
        files := files + [fs.resolve(fs.parent(vbpPath), fileRef.value)];
      }
    }
    assert refs[..|lines|] == refs;
  }

  lemma {:induction false} ResolvedAppend(fs: FileSystem, dir: Path, a: seq<Option<string>>, b: seq<Option<string>>)
    ensures Resolved(fs, dir, a + b) == Resolved(fs, dir, a) + Resolved(fs, dir, b)
    decreases |b|
  {
    if b == [] {
      assert a + b == a;
    } else {
      var init := b[..|b| - 1];
      assert (a + b)[..|a + b| - 1] == a + init;
      ResolvedAppend(fs, dir, a, init);
    }
  }

  /** The list follows the line order: the files of two runs of lines are
      those of the first run followed by those of the second. */
  lemma FileListAppend(fs: FileSystem, vbp: Path, a: seq<string>, b: seq<string>)
    ensures FileList(fs, vbp, a + b) == FileList(fs, vbp, a) + FileList(fs, vbp, b)
  {
    RefsAppend(a, b);
    ResolvedAppend(fs, fs.parent(vbp), Refs(a), Refs(b));
  }

  lemma {:induction false} ResolvedMembers(fs: FileSystem, dir: Path, refs: seq<Option<string>>, f: Path)
    ensures f in Resolved(fs, dir, refs)
        <==> exists k :: 0 <= k < |refs| && refs[k].Some? && f == fs.resolve(dir, refs[k].value)
  {
    if refs != [] {
      var init := refs[..|refs| - 1];
      ResolvedMembers(fs, dir, init, f);
      assert forall k :: 0 <= k < |init| ==> init[k] == refs[k];
    }
  }

  /** A file is listed exactly when some line refers to it. */
  lemma FileListMembers(fs: FileSystem, vbp: Path, lines: seq<string>, f: Path)
    ensures f in FileList(fs, vbp, lines)
        <==> exists k :: 0 <= k < |lines| && ReferenceOf(lines[k]).Some?
                         && f == fs.resolve(fs.parent(vbp), ReferenceOf(lines[k]).value)
  {
    ResolvedMembers(fs, fs.parent(vbp), Refs(lines), f);
    forall k | 0 <= k < |lines|
      ensures Refs(lines)[k] == ReferenceOf(lines[k])
    {
      RefsAt(lines, k);
    }
  }

  /** A missing `.vbp` raises FileNotFoundError naming it. */
  lemma MissingProject(fs: FileSystem, vbp: Path)
    requires vbp !in fs.existing
    ensures ProjectFileList(fs, vbp) == Err(FileNotFound("VBP not found: " + vbp))
  {
  }

  // ---------------------------------------------------------------------
  // get_all_projects
  // ---------------------------------------------------------------------

  /** A project found under the root: its stem and its `.vbp` path. */
  datatype Project = Project(name: string, path: Path)

  /** The last position of `c` in `s`, or -1. */
  function LastIndexOf(s: string, c: char): (r: int)
    ensures -1 <= r < |s|
    ensures r >= 0 ==> s[r] == c
    ensures forall k :: r < k < |s| ==> s[k] != c
  {
    if s == [] then -1
    else if s[|s| - 1] == c then |s| - 1
    else LastIndexOf(s[..|s| - 1], c)
  }

  /** PurePath.name: the part after the last `/`. */
  function FileName(p: Path): string
  {
    p[LastIndexOf(p, '/') + 1..]
  }

  /** PurePath.stem: the name without its last suffix; a name whose only dot
      leads it or ends it keeps it. */
  function Stem(p: Path): (r: string)
    ensures |r| <= |p|
  {
    var name := FileName(p);
    var i := LastIndexOf(name, '.');
    if 0 < i < |name| - 1 then name[..i] else name
  }

  lemma {:induction false} LastIndexOfIs(s: string, c: char, i: nat)
    requires i < |s| && s[i] == c
    requires forall k :: i < k < |s| ==> s[k] != c
    ensures LastIndexOf(s, c) == i
  {
    if i < |s| - 1 {
      LastIndexOfIs(s[..|s| - 1], c, i);
    }
  }

  /** The stem of `dir/base.vbp` is `base`. */
  lemma StemOfProjectFile(dir: Path, base: string)
    requires base != [] && '/' !in base && '.' !in base
    ensures Stem(dir + "/" + base + ".vbp") == base
  {
    var tail := base + ".vbp";
    var p := dir + "/" + tail;
    assert dir + "/" + base + ".vbp" == p;
    assert forall k :: |dir| < k < |p| ==> p[k] == tail[k - |dir| - 1];
    assert forall k :: 0 <= k < |tail| ==> tail[k] != '/';
    LastIndexOfIs(p, '/', |dir|);
    assert FileName(p) == tail;
    assert forall k :: |base| < k < |tail| ==> tail[k] != '.';
    LastIndexOfIs(tail, '.', |base|);
    assert tail[..|base|] == base;
  }

  /** The order of `sorted()` on paths: part by part. With every `/` turned
      into a character below any other, comparing the texts compares the
      parts one by one. */
  function PartsKey(p: Path): (r: string)
    ensures |r| == |p|
  {
    if p == [] then [] else [if p[0] == '/' then '\0' else p[0]] + PartsKey(p[1..])
  }

  function PathKey(p: Path): Option<string> { Some(PartsKey(p)) }

  /** The projects for the `.vbp` paths found under the root, sorted. */
  function Projects(sorted: seq<Path>): (r: seq<Project>)
    ensures |r| == |sorted|
  {
    if sorted == [] then [] else Projects(sorted[..|sorted| - 1]) + [Project(Stem(sorted[|sorted| - 1]), sorted[|sorted| - 1])]
  }

  lemma {:induction false} ProjectsAt(sorted: seq<Path>, k: nat)
    requires k < |sorted|
    ensures Projects(sorted)[k] == Project(Stem(sorted[k]), sorted[k])
  {
    if k < |sorted| - 1 {
      ProjectsAt(sorted[..|sorted| - 1], k);
    }
  }

  /** get_all_projects for the `.vbp` files `found` under the root. */
  function AllProjects(found: seq<Path>): seq<Project>
  {
    Projects(SortBy(found, PathKey))
  }

  /** get_all_projects: one project per `.vbp`, in sorted path order. */
  method GetAllProjects(found: seq<Path>) returns (projects: seq<Project>)
    ensures projects == AllProjects(found)
  {
    var sorted := SortBy(found, PathKey);
    projects := [];
    for i := 0 to |sorted|
      invariant projects == Projects(sorted[..i])
    {
      ProjectsStep(sorted, i);
      projects := projects + [Project(Stem(sorted[i]), sorted[i])];
    }
    assert sorted[..|sorted|] == sorted;
  }

  /** One more path in sorted order adds its project at the end. */
  lemma ProjectsStep(sorted: seq<Path>, i: nat)
    requires i < |sorted|
    ensures Projects(sorted[..i + 1]) == Projects(sorted[..i]) + [Project(Stem(sorted[i]), sorted[i])]
  {
    assert sorted[..i + 1][..i] == sorted[..i];
  }

  /** Every `.vbp` found is listed once per time it was found, in path
      order, under its stem. */
  lemma AllProjectsSpec(found: seq<Path>)
    ensures |AllProjects(found)| == |found|
    ensures forall k :: 0 <= k < |found| ==> AllProjects(found)[k].name == Stem(AllProjects(found)[k].path)
    ensures forall k :: 0 < k < |found| ==> LexLe(PartsKey(AllProjects(found)[k - 1].path), PartsKey(AllProjects(found)[k].path))
    ensures multiset(SortBy(found, PathKey)) == multiset(found)
  {
    var sorted := SortBy(found, PathKey);
    SortBySorted(found, PathKey);
    SortByPermutes(found, PathKey);
    forall k | 0 <= k < |found|
      ensures AllProjects(found)[k] == Project(Stem(sorted[k]), sorted[k])
    {
      ProjectsAt(sorted, k);
    }
    forall k | 0 < k < |found|
      ensures LexLe(PartsKey(sorted[k - 1]), PartsKey(sorted[k]))
    {
      assert KeyLe(PathKey(sorted[k - 1]), PathKey(sorted[k]));
    }
  }

  // ---------------------------------------------------------------------
  // build_project_structure
  // ---------------------------------------------------------------------

  /** A project's entry in the structure: its `.vbp` and its files. */
  datatype Entry = Entry(vbp: seq<Path>, files: seq<Path>)

  /** What build_project_structure returns: the resolved root, the entry of
      every project by stem, and for every file the stems of the projects
      that list it. */
  datatype Payload = Payload(root: Path, projects: map<string, Entry>, fileIndex: map<Path, seq<string>>)

  /** A project with its file list. */
  datatype Listing = Listing(project: Project, files: seq<Path>)

  /** get_project_file_list on `fs`, as a function of the `.vbp` path. */
  function Lister(fs: FileSystem): Path -> Result<seq<Path>>
  {
    vbp => ProjectFileList(fs, vbp)
  }

  /** The file lists of the projects in order, or the first exception one of
      them raised. */
  function Listings(read: Path -> Result<seq<Path>>, projects: seq<Project>): Result<seq<Listing>>
  {
    if projects == [] then Ok([])
    else match Listings(read, projects[..|projects| - 1])
      case Err(e) => Err(e)
      case Ok(ls) =>
        var p := projects[|projects| - 1];
        match read(p.path)
        case Err(e) => Err(e)
        case Ok(files) => Ok(ls + [Listing(p, files)])
  }

  /** `structure`: each project's entry under its stem; a later project with
      the same stem replaces an earlier one. */
  function StructureOf(ls: seq<Listing>): map<string, Entry>
  {
    if ls == [] then map[]
    else
      var l := ls[|ls| - 1];
      StructureOf(ls[..|ls| - 1])[l.project.name := Entry([l.project.path], l.files)]
  }

  /** `file_index.get(f, [])` */
  function Lookup(index: map<Path, seq<string>>, f: Path): seq<string>
  {
    if f in index then index[f] else []
  }

  /** `file_index.setdefault(f, []).append(name)` for each file of a project. */
  function Indexed(index: map<Path, seq<string>>, files: seq<Path>, name: string): map<Path, seq<string>>
  {
    if files == [] then index
    else
      var before := Indexed(index, files[..|files| - 1], name);
      var f := files[|files| - 1];
      before[f := Lookup(before, f) + [name]]
  }

  /** `file_index` after every project. */
  function FileIndexOf(ls: seq<Listing>): map<Path, seq<string>>
  {
    if ls == [] then map[]
    else
      var l := ls[|ls| - 1];
      Indexed(FileIndexOf(ls[..|ls| - 1]), l.files, l.project.name)
  }

  /** build_project_structure's outcome for the root's resolved path `root`
      and the `.vbp` files `found` under it; the JSON file it writes is not
      part of this model. */
  function ProjectStructure(fs: FileSystem, root: Path, found: seq<Path>): Result<Payload>
  {
    match Listings(Lister(fs), AllProjects(found))
    case Err(e) => Err(e)
    case Ok(ls) => Ok(Payload(root, StructureOf(ls), FileIndexOf(ls)))
  }

  /** build_project_structure. */
  method BuildProjectStructure(fs: FileSystem, root: Path, found: seq<Path>) returns (r: Result<Payload>)
    ensures r == ProjectStructure(fs, root, found)
  {
    var projects := GetAllProjects(found);
    var structure: map<string, Entry> := map[];
    var fileIndex: map<Path, seq<string>> := map[];
    ghost var listings: seq<Listing> := [];
    for i := 0 to |projects|
      invariant Listings(Lister(fs), projects[..i]) == Ok(listings)
      invariant structure == StructureOf(listings)
      invariant fileIndex == FileIndexOf(listings)
    {
      var project := projects[i];
      var files := GetProjectFileList(fs, project.path);
      ListingsStep(Lister(fs), projects, i, listings);
      if files.Err? {
        ListingsAbort(Lister(fs), projects, i + 1);
        return Err(files.error);
      }
      structure := structure[project.name := Entry([project.path], files.value)];
      fileIndex := IndexFiles(fileIndex, files.value, project.name);
      AssembleStep(listings, Listing(project, files.value));
      listings := listings + [Listing(project, files.value)];
    }
    assert projects[..|projects|] == projects;
    r := Ok(Payload(root, structure, fileIndex));
  }

  /** One project more: its file list, or its exception. */
  lemma ListingsStep(read: Path -> Result<seq<Path>>, projects: seq<Project>, i: nat, ls: seq<Listing>)
    requires i < |projects| && Listings(read, projects[..i]) == Ok(ls)
    ensures Listings(read, projects[..i + 1])
         == match read(projects[i].path)
            case Err(e) => Err(e)
            case Ok(files) => Ok(ls + [Listing(projects[i], files)])
  {
    assert projects[..i + 1][..i] == projects[..i];
  }

  /** One listing more: its entry in the structure and its files in the index. */
  lemma AssembleStep(ls: seq<Listing>, l: Listing)
    ensures StructureOf(ls + [l]) == StructureOf(ls)[l.project.name := Entry([l.project.path], l.files)]
    ensures FileIndexOf(ls + [l]) == Indexed(FileIndexOf(ls), l.files, l.project.name)
  {
    assert (ls + [l])[..|ls|] == ls;
  }

  /** The inner loop of build_project_structure: the project's stem is
      appended to the list of each of its files. */
  method IndexFiles(index: map<Path, seq<string>>, files: seq<Path>, name: string) returns (r: map<Path, seq<string>>)
    ensures r == Indexed(index, files, name)
  {
    r := index;
    for j := 0 to |files|
      invariant r == Indexed(index, files[..j], name)
    {
      assert files[..j + 1][..j] == files[..j];
      r := r[files[j] := Lookup(r, files[j]) + [name]];
    }
    assert files[..|files|] == files;
  }

  /** Once a project's file list fails, the whole build fails with that
      exception: nothing after it is looked at. */
  lemma {:induction false} ListingsAbort(read: Path -> Result<seq<Path>>, projects: seq<Project>, n: nat)
    requires n <= |projects| && Listings(read, projects[..n]).Err?
    ensures Listings(read, projects) == Listings(read, projects[..n])
    decreases |projects|
  {
    if n == |projects| {
      assert projects[..n] == projects;
    } else {
      var init := projects[..|projects| - 1];
      assert init[..n] == projects[..n];
      ListingsAbort(read, init, n);
    }
  }

  /** The build goes through exactly when every project's file list can be
      read. */
  lemma {:induction false} ListingsOk(read: Path -> Result<seq<Path>>, projects: seq<Project>)
    ensures Listings(read, projects).Ok?
        <==> forall k :: 0 <= k < |projects| ==> read(projects[k].path).Ok?
  {
    if projects != [] {
      var init := projects[..|projects| - 1];
      ListingsOk(read, init);
      assert forall k :: 0 <= k < |init| ==> init[k] == projects[k];
    }
  }

  /** A build that goes through holds each project with its file list, in
      order. */
  lemma {:induction false} ListingsValues(read: Path -> Result<seq<Path>>, projects: seq<Project>)
    requires Listings(read, projects).Ok?
    ensures |Listings(read, projects).value| == |projects|
    ensures forall k :: 0 <= k < |projects| ==>
              Ok(Listings(read, projects).value[k].files) == read(projects[k].path)
              && Listings(read, projects).value[k].project == projects[k]
  {
    if projects != [] {
      var init := projects[..|projects| - 1];
      ListingsValues(read, init);
      assert forall k :: 0 <= k < |init| ==> init[k] == projects[k];
    }
  }

  /** When the build fails, it fails with the exception of the first project
      whose file list cannot be read. */
  lemma {:induction false} ListingsFirstError(read: Path -> Result<seq<Path>>, projects: seq<Project>)
    requires Listings(read, projects).Err?
    ensures exists k :: 0 <= k < |projects| && read(projects[k].path) == Err(Listings(read, projects).error)
              && forall j :: 0 <= j < k ==> read(projects[j].path).Ok?
  {
    var init := projects[..|projects| - 1];
    ListingsOk(read, init);
    if Listings(read, init).Err? {
      ListingsFirstError(read, init);
      var k :| 0 <= k < |init| && read(init[k].path) == Err(Listings(read, init).error)
               && forall j :: 0 <= j < k ==> read(init[j].path).Ok?;
      assert forall j :: 0 <= j <= k ==> init[j] == projects[j];
    } else {
      assert forall j :: 0 <= j < |init| ==> init[j] == projects[j];
      var k := |projects| - 1;
      assert read(projects[k].path) == Err(Listings(read, projects).error);
    }
  }

  /** The structure has an entry for exactly the stems of the projects. */
  lemma {:induction false} StructureKeys(ls: seq<Listing>)
    ensures StructureOf(ls).Keys == set l | l in ls :: l.project.name
  {
    if ls != [] {
      var init := ls[..|ls| - 1];
      StructureKeys(init);
      assert ls == init + [ls[|ls| - 1]];
    }
  }

  /** Among projects sharing a stem the last one wins: its `.vbp` and its
      files are what the structure holds under the stem. */
  lemma {:induction false} StructureLastWins(ls: seq<Listing>, k: nat)
    requires k < |ls|
    requires forall j :: k < j < |ls| ==> ls[j].project.name != ls[k].project.name
    ensures ls[k].project.name in StructureOf(ls)
    ensures StructureOf(ls)[ls[k].project.name] == Entry([ls[k].project.path], ls[k].files)
  {
    if k < |ls| - 1 {
      var init := ls[..|ls| - 1];
      StructureLastWins(init, k);
    }
  }

  /** `n` copies of `name`. */
  function Repeat(name: string, n: nat): (r: seq<string>)
    ensures |r| == n && forall k :: 0 <= k < n ==> r[k] == name
  {
    if n == 0 then [] else Repeat(name, n - 1) + [name]
  }

  /** How often `f` is listed in `files`. */
  function Occurrences(files: seq<Path>, f: Path): nat
  {
    if files == [] then 0
    else Occurrences(files[..|files| - 1], f) + if files[|files| - 1] == f then 1 else 0
  }

  lemma {:induction false} OccurrencesIn(files: seq<Path>, f: Path)
    ensures Occurrences(files, f) > 0 <==> f in files
  {
    if files != [] {
      var init := files[..|files| - 1];
      OccurrencesIn(init, f);
      assert files == init + [files[|files| - 1]];
    }
  }

  lemma RepeatIn(x: string, n: nat, name: string)
    ensures name in Repeat(x, n) <==> n > 0 && name == x
  {
    if n > 0 {
      assert Repeat(x, n)[0] == x;
    }
  }

  /** Indexing one project appends its stem to the list of each of its
      files, once per time the file is listed. */
  lemma {:induction false} IndexedLookup(index: map<Path, seq<string>>, files: seq<Path>, name: string, f: Path)
    ensures Lookup(Indexed(index, files, name), f) == Lookup(index, f) + Repeat(name, Occurrences(files, f))
  {
    if files == [] {
      assert Lookup(index, f) + [] == Lookup(index, f);
    } else {
      var init := files[..|files| - 1];
      var last := files[|files| - 1];
      IndexedLookup(index, init, name, f);
      var before := Indexed(index, init, name);
      if last == f {
        assert Lookup(Indexed(index, files, name), f) == Lookup(before, f) + [name];
      } else {
        assert Lookup(Indexed(index, files, name), f) == Lookup(before, f);
      }
    }
  }

  /** ... and adds a key for each of them and no other. */
  lemma {:induction false} IndexedKeys(index: map<Path, seq<string>>, files: seq<Path>, name: string)
    ensures Indexed(index, files, name).Keys == index.Keys + set f | f in files
  {
    if files != [] {
      var init := files[..|files| - 1];
      IndexedKeys(index, init, name);
      assert files == init + [files[|files| - 1]];
    }
  }

  /** The reference definition of a file's list: for each project in
      order, its stem once per time it lists the file. */
  function Referrers(ls: seq<Listing>, f: Path): seq<string>
  {
    if ls == [] then []
    else
      var l := ls[|ls| - 1];
      Referrers(ls[..|ls| - 1], f) + Repeat(l.project.name, Occurrences(l.files, f))
  }

  /** file_index lists, for each file, the stems of the projects that list
      it, in project order. */
  lemma {:induction false} FileIndexLookup(ls: seq<Listing>, f: Path)
    ensures Lookup(FileIndexOf(ls), f) == Referrers(ls, f)
  {
    if ls != [] {
      var l := ls[|ls| - 1];
      FileIndexLookup(ls[..|ls| - 1], f);
      IndexedLookup(FileIndexOf(ls[..|ls| - 1]), l.files, l.project.name, f);
    }
  }

  /** The files in file_index are exactly the files of some project. */
  lemma {:induction false} FileIndexKeys(ls: seq<Listing>, f: Path)
    ensures f in FileIndexOf(ls) <==> exists k :: 0 <= k < |ls| && f in ls[k].files
  {
    if ls != [] {
      var init := ls[..|ls| - 1];
      var l := ls[|ls| - 1];
      FileIndexKeys(init, f);
      IndexedKeys(FileIndexOf(init), l.files, l.project.name);
      if exists k :: 0 <= k < |ls| && f in ls[k].files {
        var k :| 0 <= k < |ls| && f in ls[k].files;
        if k < |init| {
          assert init[k] == ls[k];
        }
      }
      assert forall k :: 0 <= k < |init| ==> init[k] == ls[k];
    }
  }

  /** A stem appears in a file's list exactly when a project with that stem
      lists the file. */
  lemma {:induction false} ReferrersMembers(ls: seq<Listing>, f: Path, name: string)
    ensures name in Referrers(ls, f) <==> exists k :: 0 <= k < |ls| && ls[k].project.name == name && f in ls[k].files
  {
    if ls != [] {
      var init := ls[..|ls| - 1];
      var l := ls[|ls| - 1];
      ReferrersMembers(init, f, name);
      OccurrencesIn(l.files, f);
      RepeatIn(l.project.name, Occurrences(l.files, f), name);
      if exists k :: 0 <= k < |ls| && ls[k].project.name == name && f in ls[k].files {
        var k :| 0 <= k < |ls| && ls[k].project.name == name && f in ls[k].files;
        if k < |init| {
          assert init[k] == ls[k];
        }
      }
      assert forall k :: 0 <= k < |init| ==> init[k] == ls[k];
    }
  }
}
