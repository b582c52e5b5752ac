/** Concrete trees from the builder's test suite, rendered in full. */
module ExampleTrees {
  import opened Paths
  import opened Ordering
  import opened Builder

  lemma SingleDirListing(b: ProjectStructureBuilder, d: Entry, level: nat)
    requires d.Dir? && |d.children| == 1 && d.children[0].Dir?
    ensures Structure(b, d, level) == EntryText(b, d.children[0], level)
  {
    var c := d.children[0];
    assert d.children == [c] && [c][1..] == [];
    assert Dirs([c]) == [c] + Dirs([]);
    assert Files([c]) == [] + Files([]);
    assert SortBy([c], DirKey) == Insert(c, [], DirKey) == [c];
    assert Ordered(d.children) == [c];
    assert [c][..0] == [];
    assert Listing(b, d, [c], level) == "" + EntryText(b, c, level);
  }

  lemma SingleFileListing(b: ProjectStructureBuilder, d: Entry, level: nat)
    requires d.Dir? && |d.children| == 1 && d.children[0].File?
    ensures Structure(b, d, level) == EntryText(b, d.children[0], level)
  {
    var c := d.children[0];
    assert d.children == [c] && [c][1..] == [];
    assert Dirs([c]) == [] + Dirs([]);
    assert Files([c]) == [c] + Files([]);
    assert SortBy([c], FileKey) == Insert(c, [], FileKey) == [c];
    assert Ordered(d.children) == [c];
    assert [c][..0] == [];
    assert Listing(b, d, [c], level) == "" + EntryText(b, c, level);
  }

  lemma IndentOneTwo()
    ensures Indent(1) == "│   " && Indent(2) == "│   │   "
  {
    assert Indent(1) == IndentUnit + "";
    assert Indent(2) == IndentUnit + Indent(1);
  }

  lemma NestedLines(b: ProjectStructureBuilder)
    requires b.ignorePatterns == []
    ensures EntryText(b, File("file.py"), 2) == "│   │   ├── file.py\n"
    ensures Line(Dir("child", [File("file.py")]), 1) == "│   ├── child/\n"
    ensures Line(Dir("parent", [Dir("child", [File("file.py")])]), 0) == "├── parent/\n"
  {
    IndentOneTwo();
  }

  lemma NestedEntryText(b: ProjectStructureBuilder)
    requires b.ignorePatterns == []
    ensures EntryText(b, Dir("parent", [Dir("child", [File("file.py")])]), 0)
         == "├── parent/\n" + ("│   ├── child/\n" + "│   │   ├── file.py\n")
  {
    var file := File("file.py");
    var child := Dir("child", [file]);
    var parent := Dir("parent", [child]);
    SingleFileListing(b, child, 2);
    SingleDirListing(b, parent, 1);
    NestedLines(b);
  }

  lemma TmpHeader()
    ensures Header(ProjectStructureBuilder("/tmp/t", [])) == "t/\n"
  {
    assert Basename("/tmp/t") == "t";
  }

  /** `parent/child/file.py` under a root at `/tmp/t` renders as three
      lines below the header, each one indent unit deeper. */
  lemma NestedDirectories()
    ensures Rendered(ProjectStructureBuilder("/tmp/t", []),
                     Dir("t", [Dir("parent", [Dir("child", [File("file.py")])])]))
         == Ok("t/\n" + "├── parent/\n" + "│   ├── child/\n" + "│   │   ├── file.py\n")
  {
    var b := ProjectStructureBuilder("/tmp/t", []);
    var root := Dir("t", [Dir("parent", [Dir("child", [File("file.py")])])]);
    SingleDirListing(b, root, 0);
    NestedEntryText(b);
    TmpHeader();
    var h, l0, l1, l2 := "t/\n", "├── parent/\n", "│   ├── child/\n", "│   │   ├── file.py\n";
    ConcatAssoc(l0, l1, l2);
    ConcatAssoc(h, l0 + l1, l2);
    ConcatAssoc(h, l0, l1);
  }

  /** The ignore check of the test suite: with the pattern `ignore_this`,
      the path ending in `ignore_this` is ignored, `not_ignored` is not. */
  lemma ShouldIgnoreExample()
    ensures ShouldIgnore(ProjectStructureBuilder("/test", ["ignore_this"]), "/test/ignore_this")
    ensures !ShouldIgnore(ProjectStructureBuilder("/test", ["ignore_this"]), "/test/not_ignored")
  {
    BasenameAfterSep("/test/", "ignore_this");
    BasenameAfterSep("/test/", "not_ignored");
    assert "/test/" + "ignore_this" == "/test/ignore_this";
    assert "/test/" + "not_ignored" == "/test/not_ignored";
    assert "not_ignored" != "ignore_this";
  }
}
