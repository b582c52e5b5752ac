/** `ProjectStructureBuilder`: renders a directory tree as indented text.

    The file system is a finite snapshot. Each directory's `children` are in
    the order `os.listdir` returns them. `Dir` is what `os.path.isdir`
    accepts, `File` what `os.path.isfile` accepts, and `Other` is everything
    else (broken links, sockets, devices). */
module Builder {
  import opened Paths
  import opened Ordering

  datatype Entry = Dir(name: string, children: seq<Entry>) | File(name: string) | Other(name: string)

  /** The builder's configuration; neither field changes after construction.
      The source's `ignore_patterns=None` is the empty sequence here. */
  datatype ProjectStructureBuilder = ProjectStructureBuilder(baseDir: string, ignorePatterns: seq<string>)

  /** `os.listdir` on the root fails when the root is not a directory. */
  datatype Error = CannotList(path: string)

  datatype Result<T> = Ok(value: T) | Err(error: Error)

  const IndentUnit: string := "│   "
  const Branch: string := "├── "

  /** No name in the subtree of `e` holds the character `ch`. Names as
      `os.listdir` returns them never hold the separator. */
  predicate NamesAvoid(e: Entry, ch: char)
  {
    ch !in e.name && (e.Dir? ==> forall c | c in e.children :: NamesAvoid(c, ch))
  }

  /** `_should_ignore`: exact, case-sensitive membership of the base name. */
  function ShouldIgnore(b: ProjectStructureBuilder, path: string): (r: bool)
    ensures r <==> exists k :: 0 <= k <= |path| && (k == 0 || path[k - 1] == Sep)
                           && Sep !in path[k..] && path[k..] in b.ignorePatterns
  {
    BasenameStarts(path);
    BasenameIsTail(path);
    assert path[|path| - |Basename(path)|..] == Basename(path);
    Basename(path) in b.ignorePatterns
  }

  /** Ignoring the joined path of an entry is ignoring its name, and nothing
      else: no prefix, suffix, pattern or case folding is involved. */
  lemma ShouldIgnoreEntry(b: ProjectStructureBuilder, directory: string, name: string)
    requires Sep !in name
    ensures ShouldIgnore(b, Join(directory, name)) <==> name in b.ignorePatterns
  {
    BasenameOfJoin(directory, name);
  }

  /** A pattern holding a separator (`build/`, `src/x`) matches no path: a
      base name never holds one. */
  lemma PatternWithSepNeverMatches(b: ProjectStructureBuilder, pattern: string, path: string)
    requires Sep in pattern
    ensures ShouldIgnore(b, path) <==> ShouldIgnore(ProjectStructureBuilder(b.baseDir, b.ignorePatterns + [pattern]), path)
  {
    var name := Basename(path);
    assert name != pattern by {
      var i :| 0 <= i < |pattern| && pattern[i] == Sep;
    }
    assert name in b.ignorePatterns + [pattern] <==> name in b.ignorePatterns || name in [pattern];
  }

  /** `_custom_sort`: the key by which files are sorted. */
  function CustomSort(entry: string): (r: string)
    ensures |r| == |entry| && forall i :: 0 <= i < |r| ==> !IsUpper(r[i])
  {
    Lower(entry)
  }

  /** Two names that differ only in the case of ASCII letters share a key. */
  lemma {:induction false} CustomSortIgnoresCase(a: string, b: string)
    requires |a| == |b|
    requires forall i :: 0 <= i < |a| ==> LowerChar(a[i]) == LowerChar(b[i])
    ensures CustomSort(a) == CustomSort(b)
  {
    assert forall i :: 0 <= i < |a| ==> CustomSort(a)[i] == LowerChar(a[i]);
  }

  /** The example of the builder's test suite: `sorted` with `_custom_sort`
      as key puts `notes.txt` before `README.md` before `script.py`. */
  lemma CustomSortExample()
    ensures SortBy(["README.md", "script.py", "notes.txt"], CustomSort) == ["notes.txt", "README.md", "script.py"]
  {
    assert CustomSort("notes.txt")[0] == 'n';
    assert CustomSort("README.md")[0] == 'r';
    assert CustomSort("script.py")[0] == 's';
    var tail := ["script.py", "notes.txt"];
    assert ["README.md", "script.py", "notes.txt"][1..] == tail;
    assert tail[1..] == ["notes.txt"];
    assert SortBy(["notes.txt"], CustomSort) == ["notes.txt"];
    assert !LexLe(CustomSort("script.py"), CustomSort("notes.txt"));
    assert SortBy(tail, CustomSort) == ["notes.txt", "script.py"];
    assert LexLe(CustomSort("README.md"), CustomSort("script.py"));
    assert Insert("README.md", ["script.py"], CustomSort) == ["README.md", "script.py"];
    assert !LexLe(CustomSort("README.md"), CustomSort("notes.txt"));
    assert ["notes.txt", "script.py"][1..] == ["script.py"];
  }

  function DirKey(e: Entry): string { e.name }
  function FileKey(e: Entry): string { CustomSort(e.name) }

  /** The list comprehension `[e for e in entries if os.path.isdir(...)]`. */
  function Dirs(es: seq<Entry>): (r: seq<Entry>)
    ensures forall e :: e in r <==> e in es && e.Dir?
  {
    if es == [] then [] else (if es[0].Dir? then [es[0]] else []) + Dirs(es[1..])
  }

  /** The list comprehension `[e for e in entries if os.path.isfile(...)]`. */
  function Files(es: seq<Entry>): (r: seq<Entry>)
    ensures forall e :: e in r <==> e in es && e.File?
  {
    if es == [] then [] else (if es[0].File? then [es[0]] else []) + Files(es[1..])
  }

  /** The directory list holds each directory exactly as often as the
      listing does, and nothing else. */
  lemma {:induction false} DirsCount(es: seq<Entry>, e: Entry)
    ensures multiset(Dirs(es))[e] == if e.Dir? then multiset(es)[e] else 0
  {
    if es != [] {
      DirsCount(es[1..], e);
      assert es == [es[0]] + es[1..];
    }
  }

  /** The file list holds each file exactly as often as the listing does,
      and nothing else. */
  lemma {:induction false} FilesCount(es: seq<Entry>, e: Entry)
    ensures multiset(Files(es))[e] == if e.File? then multiset(es)[e] else 0
  {
    if es != [] {
      FilesCount(es[1..], e);
      assert es == [es[0]] + es[1..];
    }
  }

  /** `dirs + files`: the order in which one directory's entries are visited. */
  function Ordered(es: seq<Entry>): (r: seq<Entry>)
    ensures forall e :: e in r <==> e in es && !e.Other?
  {
    var dirs := SortBy(Dirs(es), DirKey);
    var files := SortBy(Files(es), FileKey);
    SortByMembers(Dirs(es), DirKey);
    SortByMembers(Files(es), FileKey);
    dirs + files
  }

  /** `"│   " * level`. */
  function Indent(level: nat): (r: string)
    ensures |r| == 4 * level
  {
    if level == 0 then "" else IndentUnit + Indent(level - 1)
  }

  /** The indent is the unit `"│   "` over and over: character `i` of it is
      character `i % 4` of the unit. */
  lemma {:induction false} IndentRepeatsUnit(level: nat, i: nat)
    requires i < |Indent(level)|
    ensures Indent(level)[i] == IndentUnit[i % 4]
  {
    if i >= 4 {
      IndentRepeatsUnit(level - 1, i - 4);
      assert (i - 4) % 4 == i % 4;
    }
  }

  /** The line for the name `name` at depth `level`, with a trailing `/`
      when it is a directory. */
  function LineFor(name: string, isDir: bool, level: nat): string
  {
    Indent(level) + Branch + name + (if isDir then "/\n" else "\n")
  }

  /** The line of one listed entry. */
  function Line(e: Entry, level: nat): (r: string)
  {
    LineFor(e.name, e.Dir?, level)
  }

  /** The parts of the line `Line(e, level)`, at their positions: the
      indent, the branch, the name, then `/` for a directory and a line
      break. */
  lemma LineShape(e: Entry, level: nat)
    ensures var r, n := Line(e, level), 4 * level + 4 + |e.name|;
      && |r| == n + (if e.Dir? then 2 else 1)
      && r[..4 * level] == Indent(level) && r[4 * level..4 * level + 4] == Branch
      && r[4 * level + 4..n] == e.name
      && r[|r| - 1] == '\n' && (e.Dir? ==> r[n] == Sep)
  {
    var tail := if e.Dir? then "/\n" else "\n";
    var r := Line(e, level);
    assert r == Indent(level) + Branch + e.name + tail;
    assert r[|r| - |tail|..] == tail;
  }

  /** What the loop of `_get_structure` has produced after visiting `es`, a
      prefix of the entries of directory `d`, at indent `level`. */
  function Listing(b: ProjectStructureBuilder, d: Entry, es: seq<Entry>, level: nat): string
    requires d.Dir? && forall e | e in es :: e in d.children
    decreases d, 0, |es|
  {
    if es == [] then ""
    else
      var e := es[|es| - 1];
      assert e in d.children;
      Listing(b, d, es[..|es| - 1], level) + EntryText(b, e, level)
  }

  /** An entry the loop renders: not ignored, and a directory or a file. */
  predicate Survives(b: ProjectStructureBuilder, e: Entry)
  {
    e.name !in b.ignorePatterns && !e.Other?
  }

  /** What one visited entry contributes: nothing when ignored or neither a
      directory nor a file, its line otherwise, followed for a directory by
      its own listing one level deeper. */
  function EntryText(b: ProjectStructureBuilder, e: Entry, level: nat): string
    decreases e, 1
  {
    if !Survives(b, e) then ""
    else if e.File? then Line(e, level)
    else Line(e, level) + Listing(b, e, Ordered(e.children), level + 1)
  }

  /** Associativity of string concatenation, stated once as a hint for the
      solver; it states nothing about the builder. */
  lemma ConcatAssoc(a: string, b: string, c: string)
    ensures (a + b) + c == a + (b + c)
  {
  }

  lemma ListingExtend(b: ProjectStructureBuilder, d: Entry, es: seq<Entry>, i: nat, level: nat)
    requires d.Dir? && forall e | e in es :: e in d.children
    requires i < |es|
    ensures Listing(b, d, es[..i + 1], level) == Listing(b, d, es[..i], level) + EntryText(b, es[i], level)
  {
    assert es[..i + 1][..i] == es[..i];
  }

  /** The text `_get_structure` returns for directory `d`. */
  function Structure(b: ProjectStructureBuilder, d: Entry, level: nat): string
    requires d.Dir?
  {
    Listing(b, d, Ordered(d.children), level)
  }

  function Header(b: ProjectStructureBuilder): (r: string)
    ensures 2 <= |r| && r[|r| - 2..] == "/\n"
    ensures Sep !in r[..|r| - 2]
    ensures var n, p := |r| - 2, b.baseDir;
      n <= |p| && r[..n] == p[|p| - n..] && (n < |p| ==> p[|p| - n - 1] == Sep)
  {
    var name := Basename(b.baseDir);
    BasenameIsTail(b.baseDir);
    var r := name + "/\n";
    assert r[..|r| - 2] == name && r[|r| - 2..] == "/\n";
    r
  }

  /** What `build()` returns, or the error it raises, for the snapshot `root`
      found at `b.baseDir`. */
  function Rendered(b: ProjectStructureBuilder, root: Entry): Result<string>
  {
    if root.Dir? then Ok(Header(b) + Structure(b, root, 0)) else Err(CannotList(b.baseDir))
  }

  /** `_get_structure(directory, indent_level)`, where `d` is what the file
      system holds at the path `directory`. */
  method GetStructure(b: ProjectStructureBuilder, directory: string, d: Entry, level: nat)
    returns (structure: string)
    requires d.Dir? && forall c | c in d.children :: NamesAvoid(c, Sep)
    ensures structure == Structure(b, d, level)
    decreases d
  {
    structure := "";
    var dirs := SortBy(Dirs(d.children), DirKey);
    var files := SortBy(Files(d.children), FileKey);
    var entries := dirs + files;
    assert entries == Ordered(d.children);

    for i := 0 to |entries|
      invariant structure == Listing(b, d, entries[..i], level)
    {
      var entry := entries[i];
      ghost var before := structure;
      ListingExtend(b, d, entries, i, level);
      assert entry in d.children && !entry.Other?;
      ShouldIgnoreEntry(b, directory, entry.name);
      if ShouldIgnore(b, Join(directory, entry.name)) {
        assert EntryText(b, entry, level) == "";
        assert before + "" == before;
        continue;
      }

      var path := Join(directory, entry.name);
      var indent := Indent(level);

      if entry.Dir? {
        var line := indent + Branch + entry.name + "/\n";
        structure := structure + line;
        var sub := GetStructure(b, path, entry, level + 1);
        ConcatAssoc(before, line, sub);
        structure := structure + sub;
        assert EntryText(b, entry, level) == line + sub;
      } else {
        var line := indent + Branch + entry.name + "\n";
        structure := structure + line;
        assert EntryText(b, entry, level) == line;
      }
    }
    assert entries[..|entries|] == entries;
  }

  /** `build()`. */
  method Build(b: ProjectStructureBuilder, root: Entry) returns (r: Result<string>)
    requires root.Dir? ==> forall c | c in root.children :: NamesAvoid(c, Sep)
    ensures r == Rendered(b, root)
  {
    if !root.Dir? {
      return Err(CannotList(b.baseDir));
    }
    var structure := GetStructure(b, b.baseDir, root, 0);
    r := Ok(Header(b) + structure);
  }

  /** What `save_to_file` leaves behind: the file it wrote and the line it
      printed. */
  datatype Saved = Saved(path: string, content: string, message: string)

  /** `save_to_file(output_file)`: the written content is exactly `build()`;
      when `build()` raises, nothing is written. */
  method SaveToFile(b: ProjectStructureBuilder, root: Entry, outputFile: string) returns (r: Result<Saved>)
    requires root.Dir? ==> forall c | c in root.children :: NamesAvoid(c, Sep)
    ensures r.Err? <==> Rendered(b, root).Err?
    ensures r.Err? ==> r.error == Rendered(b, root).error
    ensures r.Ok? ==> r.value.path == outputFile && r.value.content == Rendered(b, root).value
    ensures r.Ok? ==> r.value.message == "Project structure written to: " + outputFile
  {
    var structure := Build(b, root);
    if structure.Err? {
      return Err(structure.error);
    }
    r := Ok(Saved(outputFile, structure.value, "Project structure written to: " + outputFile));
  }
}
