/** VbpIndex: reads a VB6 project manifest (.vbp), a file of `key=value`
    lines, into the project's name, its startup object and its ordered
    Form/Module/Class entries. */
module VbpIndex {
  import opened Base
  import opened Text

  /** VbpEntryType */
  datatype EntryType = Form | Module | Class

  /** VbpEntry: the declared name (before a `;`) is absent when the value has no `;`. */
  datatype Entry = Entry(kind: EntryType, name: Option<string>, path: string)

  /** VbpProject */
  datatype Project = Project(name: Option<string>, startup: Option<string>, entries: seq<Entry>)

  /** buildEntry: `Name;Path` is split at the first `;`, a bare value is the path. */
  function BuildEntry(kind: EntryType, value: string): (e: Entry)
    ensures e.kind == kind
    ensures e.name.None? <==> ';' !in value
    ensures e.name.None? ==> e.path == value
  {
    var separator := IndexOf(value, ';');
    if separator >= 0 then Entry(kind, Some(Trim(value[..separator])), Trim(value[separator + 1..]))
    else Entry(kind, None, value)
  }

  /** A value with a `;` is split at the FIRST `;`: the trimmed text before it
      is the name and the trimmed rest, which may hold further `;`, the path. */
  lemma EntrySplitsAtFirstSemicolon(kind: EntryType, value: string)
    requires ';' in value
    ensures exists i :: 0 <= i < |value| && value[i] == ';' && ';' !in value[..i]
                        && BuildEntry(kind, value).name == Some(Trim(value[..i]))
                        && BuildEntry(kind, value).path == Trim(value[i + 1..])
  {
    var i := SemicolonAt(kind, value);
  }

  /** The position of the first `;`, with the name and path read around it. */
  lemma SemicolonAt(kind: EntryType, value: string) returns (i: nat)
    requires ';' in value
    ensures i < |value| && value[i] == ';' && ';' !in value[..i]
    ensures BuildEntry(kind, value) == Entry(kind, Some(Trim(value[..i])), Trim(value[i + 1..]))
  {
    i := IndexOf(value, ';');
  }

  /** A manifest line that parse acts on: its case-folded key and its value. */
  datatype Directive = Directive(key: string, value: string)

  /** How parse reads one line: blank lines, `'` comments and lines without `=`
      say nothing; otherwise the key is the trimmed, lower-cased text before the
      first `=` and the value is the trimmed rest, which may contain `=`. */
  function DirectiveOf(rawLine: string): (d: Option<Directive>)
    ensures d.None? <==> (IsBlankOrComment(Trim(rawLine)) || '=' !in Trim(rawLine))
  {
    var line := Trim(rawLine);
    if IsBlankOrComment(line) then None
    else
      var equals := IndexOf(line, '=');
      if equals < 0 then None
      else Some(Directive(Lower(Trim(line[..equals])), Trim(line[equals + 1..])))
  }

  /** The key is the text before the FIRST `=`, so the value keeps any later `=`. */
  lemma DirectiveSplitsAtFirstEquals(rawLine: string)
    requires DirectiveOf(rawLine).Some?
    ensures var line := Trim(rawLine);
      exists i :: 0 <= i < |line| && line[i] == '=' && '=' !in line[..i]
                  && DirectiveOf(rawLine).value.key == Lower(Trim(line[..i]))
                  && DirectiveOf(rawLine).value.value == Trim(line[i + 1..])
  {
    var line := Trim(rawLine);
    var i := IndexOf(line, '=');
    assert DirectiveOf(rawLine).value == Directive(Lower(Trim(line[..i])), Trim(line[i + 1..]));
  }

  /** The entry kind a key declares, if any. */
  function EntryTypeOf(key: string): Option<EntryType>
  {
    if key == "form" then Some(Form)
    else if key == "module" then Some(Module)
    else if key == "class" then Some(Class)
    else None
  }

  /** How parse reads each line of the manifest, in file order. */
  function Directives(lines: seq<string>): (ds: seq<Option<Directive>>)
    ensures |ds| == |lines|
  {
    seq(|lines|, i requires 0 <= i < |lines| => DirectiveOf(lines[i]))
  }

  /** The line was read as a directive with this key. */
  predicate HasKey(d: Option<Directive>, key: string)
  {
    d.Some? && d.value.key == key
  }

  /** The value of the last directive whose key is `key`, or None. */
  function LastValue(ds: seq<Option<Directive>>, key: string): Option<string>
  {
    if ds == [] then None
    else if HasKey(ds[|ds| - 1], key) then Some(ds[|ds| - 1].value.value)
    else LastValue(ds[..|ds| - 1], key)
  }

  /** The entry a single directive declares: none, or one of the key's kind. */
  function EntriesOfLine(d: Option<Directive>): seq<Entry>
  {
    if d.Some? && EntryTypeOf(d.value.key).Some?
    then [BuildEntry(EntryTypeOf(d.value.key).value, d.value.value)]
    else []
  }

  /** The entries the directives declare, in file order. */
  function EntriesOf(ds: seq<Option<Directive>>): seq<Entry>
  {
    if ds == [] then [] else EntriesOf(ds[..|ds| - 1]) + EntriesOfLine(ds[|ds| - 1])
  }

  /** The project a manifest describes. */
  function ProjectOf(lines: seq<string>): Project
  {
    var ds := Directives(lines);
    Project(LastValue(ds, "name"), LastValue(ds, "startup"), EntriesOf(ds))
  }

  /** The head of parse's line loop: trim, skip blank, comment and
      `=`-less lines, and split the rest at the first `=`. */
  method ReadDirective(rawLine: string) returns (d: Option<Directive>)
    ensures d == DirectiveOf(rawLine)
  {
    var line := Trim(rawLine);
    if IsBlankOrComment(line) {
      return None;
    }
    var equals := IndexOf(line, '=');
    if equals < 0 {
      return None;
    }
    var key := Trim(line[..equals]);
    var value := Trim(line[equals + 1..]);
    return Some(Directive(Lower(key), value));
  }

  /** Reading one more directive: the name, the startup and the entries
      change only as that directive says. */
  lemma PrefixStep(ds: seq<Option<Directive>>, i: nat)
    requires i < |ds|
    ensures LastValue(ds[..i + 1], "name")
         == if HasKey(ds[i], "name") then Some(ds[i].value.value) else LastValue(ds[..i], "name")
    ensures LastValue(ds[..i + 1], "startup")
         == if HasKey(ds[i], "startup") then Some(ds[i].value.value) else LastValue(ds[..i], "startup")
    ensures EntriesOf(ds[..i + 1]) == EntriesOf(ds[..i]) + EntriesOfLine(ds[i])
  {
    assert ds[..i + 1][..i] == ds[..i];
  }

  /** VbpIndex.parse: an IOException when the manifest cannot be read,
      otherwise the project its lines describe. */
  method Parse(fs: FileSystem, vbpPath: Path) returns (r: Result<Project>)
    ensures r.Err? <==> ReadLines(fs, vbpPath).Err?
    ensures r.Err? ==> r.error == IoError(vbpPath)
    ensures r.Ok? ==> r.value == ProjectOf(ReadLines(fs, vbpPath).value)
  {
    var read := ReadLines(fs, vbpPath);
    if read.Err? {
      return Err(read.error);
    }
    var p := ParseLines(read.value);
    return Ok(p);
  }

  /** The loop of VbpIndex.parse over the decoded lines. */
  method ParseLines(lines: seq<string>) returns (p: Project)
    ensures p == ProjectOf(lines)
  {
    ghost var ds := Directives(lines);
    var entries: seq<Entry> := [];
    var name: Option<string> := None;
    var startup: Option<string> := None;
    for i := 0 to |lines|
      invariant name == LastValue(ds[..i], "name")
      invariant startup == LastValue(ds[..i], "startup")
      invariant entries == EntriesOf(ds[..i])
    {
      PrefixStep(ds, i);
      var d := ReadDirective(lines[i]);
      assert d == ds[i];
      if d.None? {
        continue;
      }
      var folded, value := d.value.key, d.value.value;
      if folded == "name" {
        name := Some(value);
      } else if folded == "startup" {
        startup := Some(value);
      } else if folded == "form" {
        entries := entries + [BuildEntry(Form, value)];
      } else if folded == "module" {
        entries := entries + [BuildEntry(Module, value)];
      } else if folded == "class" {
        entries := entries + [BuildEntry(Class, value)];
      }
    }
    assert ds[..|lines|] == ds;
    p := Project(name, startup, entries);
  }

  // ---------------------------------------------------------------------
  // Properties
  // ---------------------------------------------------------------------

  /** Reading more lines keeps the earlier value unless a later line overrides it. */
  lemma {:induction false} LastValueAppend(a: seq<Option<Directive>>, b: seq<Option<Directive>>, key: string)
    ensures LastValue(a + b, key) == if LastValue(b, key).Some? then LastValue(b, key) else LastValue(a, key)
  {
    if b != [] {
      assert (a + b)[..|a + b| - 1] == a + b[..|b| - 1];
      assert (a + b)[|a + b| - 1] == b[|b| - 1];
      LastValueAppend(a, b[..|b| - 1], key);
    } else {
      assert a + b == a;
    }
  }

  /** Entries of consecutive blocks of lines follow each other. */
  lemma {:induction false} EntriesAppend(a: seq<Option<Directive>>, b: seq<Option<Directive>>)
    ensures EntriesOf(a + b) == EntriesOf(a) + EntriesOf(b)
  {
    if b != [] {
      assert (a + b)[..|a + b| - 1] == a + b[..|b| - 1];
      assert (a + b)[|a + b| - 1] == b[|b| - 1];
      EntriesAppend(a, b[..|b| - 1]);
    } else {
      assert a + b == a;
    }
  }

  /** The lines of two blocks are read independently of each other. */
  lemma DirectivesAppend(a: seq<string>, b: seq<string>)
    ensures Directives(a + b) == Directives(a) + Directives(b)
  {
    forall k | 0 <= k < |a + b|
      ensures Directives(a + b)[k] == (Directives(a) + Directives(b))[k]
    {
      if k < |a| {
        assert (a + b)[k] == a[k];
      } else {
        assert (a + b)[k] == b[k - |a|];
      }
    }
  }

  /** `name` and `startup` take the value of the LAST line with that key, and
      stay null when no line has it. */
  lemma LastValueIsLastOccurrence(ds: seq<Option<Directive>>, key: string)
    ensures LastValue(ds, key).None? <==> forall i :: 0 <= i < |ds| ==> !HasKey(ds[i], key)
    ensures LastValue(ds, key).Some? ==>
      exists i :: 0 <= i < |ds| && HasKey(ds[i], key)
                  && LastValue(ds, key).value == ds[i].value.value
                  && forall j :: i < j < |ds| ==> !HasKey(ds[j], key)
  {
    LastValueAbsent(ds, key);
    if LastValue(ds, key).Some? {
      var i := LastValueAt(ds, key);
    }
  }

  /** No value exactly when no directive has the key. */
  lemma {:induction false} LastValueAbsent(ds: seq<Option<Directive>>, key: string)
    ensures LastValue(ds, key).None? <==> forall i :: 0 <= i < |ds| ==> !HasKey(ds[i], key)
  {
    if ds != [] {
      var init := ds[..|ds| - 1];
      LastValueAbsent(init, key);
      assert forall i :: 0 <= i < |init| ==> init[i] == ds[i];
    }
  }

  /** A value comes from the last directive with the key. */
  lemma {:induction false} LastValueAt(ds: seq<Option<Directive>>, key: string) returns (i: nat)
    requires LastValue(ds, key).Some?
    ensures i < |ds| && HasKey(ds[i], key) && LastValue(ds, key).value == ds[i].value.value
    ensures forall j :: i < j < |ds| ==> !HasKey(ds[j], key)
  {
    var last := |ds| - 1;
    if HasKey(ds[last], key) {
      i := last;
    } else {
      var init := ds[..last];
      i := LastValueAt(init, key);
      assert ds[i] == init[i];
      forall j | i < j < |ds|
        ensures !HasKey(ds[j], key)
      {
        if j < last {
          assert ds[j] == init[j];
        }
      }
    }
  }

  /** The keys parse acts on. */
  predicate KnownKey(key: string)
  {
    key == "name" || key == "startup" || key == "form" || key == "module" || key == "class"
  }

  /** A directive without `key` leaves that key's last value where it was. */
  lemma IgnoredForKey(da: seq<Option<Directive>>, d: Option<Directive>, db: seq<Option<Directive>>, key: string)
    requires !HasKey(d, key)
    ensures LastValue(da + [d] + db, key) == LastValue(da + db, key)
  {
    assert [d][..0] == [];
    LastValueAppend(da + [d], db, key);
    LastValueAppend(da, [d], key);
    LastValueAppend(da, db, key);
  }

  /** A directive that declares no entry leaves the entries where they were. */
  lemma IgnoredForEntries(da: seq<Option<Directive>>, d: Option<Directive>, db: seq<Option<Directive>>)
    requires d.None? || EntryTypeOf(d.value.key).None?
    ensures EntriesOf(da + [d] + db) == EntriesOf(da + db)
  {
    assert [d][..0] == [];
    EntriesAppend(da + [d], db);
    EntriesAppend(da, [d]);
    EntriesAppend(da, db);
  }

  /** A line that is blank, a comment, has no `=`, or has a key parse does not
      know changes nothing: not the name, not the startup, not the entries. */
  lemma IgnoredLine(a: seq<string>, line: string, b: seq<string>)
    requires DirectiveOf(line).None? || !KnownKey(DirectiveOf(line).value.key)
    ensures ProjectOf(a + [line] + b) == ProjectOf(a + b)
  {
    DirectivesAppend(a + [line], b);
    DirectivesAppend(a, [line]);
    DirectivesAppend(a, b);
    assert Directives([line]) == [DirectiveOf(line)];
    IgnoredForKey(Directives(a), DirectiveOf(line), Directives(b), "name");
    IgnoredForKey(Directives(a), DirectiveOf(line), Directives(b), "startup");
    IgnoredForEntries(Directives(a), DirectiveOf(line), Directives(b));
  }

  /** Blank lines and `'` comments are ignored lines. */
  lemma CommentIsIgnored(line: string)
    requires IsBlankOrComment(Trim(line))
    ensures DirectiveOf(line).None?
  {
  }

  /** Each form/module/class line contributes exactly one entry of its kind,
      built from its value, after the entries of the lines before it; any
      other line contributes none. */
  lemma EntryLine(a: seq<string>, line: string)
    ensures var d := DirectiveOf(line);
      d.Some? && EntryTypeOf(d.value.key).Some? ==>
      EntriesOf(Directives(a + [line])) == EntriesOf(Directives(a)) + [BuildEntry(EntryTypeOf(d.value.key).value, d.value.value)]
    ensures var d := DirectiveOf(line);
      !(d.Some? && EntryTypeOf(d.value.key).Some?) ==>
      EntriesOf(Directives(a + [line])) == EntriesOf(Directives(a))
  {
    DirectivesAppend(a, [line]);
    var ds := Directives(a + [line]);
    assert ds[..|a|] == Directives(a);
    assert ds[|a|] == DirectiveOf(line);
  }

  /** `Name;Path` declares the trimmed name and the trimmed path; later `;`
      stay in the path. */
  lemma NamedEntry(kind: EntryType, name: string, path: string)
    requires ';' !in name
    ensures BuildEntry(kind, name + ";" + path) == Entry(kind, Some(Trim(name)), Trim(path))
  {
    var value := name + ";" + path;
    IndexOfIs(value, ';', |name|);
    assert value[..|name|] == name;
    assert value[|name| + 1..] == path;
  }
}
