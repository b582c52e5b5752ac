/** The rendering seen line by line. A `Row` names the entry a line stands
    for by its path of names below the listed directory, so the depth of the
    entry is the length of that path less one. */
module Rows {
  import opened Paths
  import opened Builder

  datatype Row = Row(path: seq<string>, isDir: bool)

  ghost predicate AllNonEmpty(rows: seq<Row>)
  {
    forall r | r in rows :: |r.path| >= 1
  }

  /** The text of the line for `r` in a listing that starts at indent `level`. */
  function RowText(r: Row, level: nat): string
    requires |r.path| >= 1
  {
    LineFor(r.path[|r.path| - 1], r.isDir, level + |r.path| - 1)
  }

  function Text(rows: seq<Row>, level: nat): string
    requires AllNonEmpty(rows)
  {
    if rows == [] then "" else Text(rows[..|rows| - 1], level) + RowText(rows[|rows| - 1], level)
  }

  /** The rows of a sub-listing, seen from the directory one level up. */
  function Under(name: string, rows: seq<Row>): (r: seq<Row>)
    ensures |r| == |rows|
    ensures forall i :: 0 <= i < |rows| ==> r[i] == Row([name] + rows[i].path, rows[i].isDir)
  {
    seq(|rows|, i requires 0 <= i < |rows| => Row([name] + rows[i].path, rows[i].isDir))
  }

  /** The rows for the entries `es` of directory `d`, visited in order. */
  function ListingRows(b: ProjectStructureBuilder, d: Entry, es: seq<Entry>): (rows: seq<Row>)
    requires d.Dir? && forall e | e in es :: e in d.children
    ensures AllNonEmpty(rows)
    decreases d, 0, |es|
  {
    if es == [] then []
    else
      var e := es[|es| - 1];
      assert e in d.children;
      ListingRows(b, d, es[..|es| - 1]) + EntryRows(b, e)
  }

  /** The rows for one visited entry: none when it is ignored or neither a
      directory nor a file; else its own row, then, for a directory, the rows
      of its contents. */
  function EntryRows(b: ProjectStructureBuilder, e: Entry): (rows: seq<Row>)
    ensures AllNonEmpty(rows)
    decreases e, 1
  {
    if !Survives(b, e) then []
    else if e.File? then [Row([e.name], false)]
    else [Row([e.name], true)] + Under(e.name, ListingRows(b, e, Ordered(e.children)))
  }

  function StructureRows(b: ProjectStructureBuilder, d: Entry): seq<Row>
    requires d.Dir?
  {
    ListingRows(b, d, Ordered(d.children))
  }

  // ---------------------------------------------------------------------
  // The rows spell out the text.

  lemma {:induction false} TextConcat(a: seq<Row>, c: seq<Row>, level: nat)
    requires AllNonEmpty(a) && AllNonEmpty(c)
    ensures AllNonEmpty(a + c)
    ensures Text(a + c, level) == Text(a, level) + Text(c, level)
    decreases |c|
  {
    if c == [] {
      assert a + c == a;
    } else {
      var c', last := c[..|c| - 1], c[|c| - 1];
      assert last in c;
      assert (a + c)[..|a + c| - 1] == a + c' && (a + c)[|a + c| - 1] == last;
      assert AllNonEmpty(c') by { assert forall r | r in c' :: r in c; }
      TextConcat(a, c', level);
      assert Text(a + c, level) == Text(a + c', level) + RowText(last, level);
      assert Text(c, level) == Text(c', level) + RowText(last, level);
      ConcatAssoc(Text(a, level), Text(c', level), RowText(last, level));
    }
  }

  lemma UnderNonEmpty(name: string, rows: seq<Row>)
    ensures AllNonEmpty(Under(name, rows))
  {
    var u := Under(name, rows);
    forall r | r in u ensures |r.path| >= 1 {
      var i :| 0 <= i < |u| && u[i] == r;
    }
  }

  lemma RowTextUnder(name: string, r: Row, level: nat)
    requires |r.path| >= 1
    ensures RowText(Row([name] + r.path, r.isDir), level) == RowText(r, level + 1)
  {
    var p := [name] + r.path;
    assert |p| == |r.path| + 1;
    assert p[|p| - 1] == r.path[|r.path| - 1];
  }

  lemma {:induction false} TextUnder(name: string, rows: seq<Row>, level: nat)
    requires AllNonEmpty(rows)
    ensures AllNonEmpty(Under(name, rows))
    ensures Text(Under(name, rows), level) == Text(rows, level + 1)
  {
    var u := Under(name, rows);
    UnderNonEmpty(name, rows);
    if rows != [] {
      var n := |rows|;
      var init := rows[..n - 1];
      assert u[..n - 1] == Under(name, init);
      UnderNonEmpty(name, init);
      TextUnder(name, init, level);
      var last := rows[n - 1];
      assert last in rows;
      RowTextUnder(name, last, level);
      assert Text(u, level) == Text(u[..n - 1], level) + RowText(u[n - 1], level);
    }
  }

  lemma {:induction false} ListingRowsText(b: ProjectStructureBuilder, d: Entry, es: seq<Entry>, level: nat)
    requires d.Dir? && forall e | e in es :: e in d.children
    ensures Text(ListingRows(b, d, es), level) == Listing(b, d, es, level)
    decreases d, 0, |es|
  {
    if es != [] {
      var e := es[|es| - 1];
      assert e in d.children;
      ListingRowsText(b, d, es[..|es| - 1], level);
      EntryRowsText(b, e, level);
      TextConcat(ListingRows(b, d, es[..|es| - 1]), EntryRows(b, e), level);
    }
  }

  lemma HeadRowText(e: Entry, level: nat)
    ensures Text([Row([e.name], e.Dir?)], level) == Line(e, level)
  {
    var rows := [Row([e.name], e.Dir?)];
    assert rows[..0] == [];
    assert Text(rows, level) == "" + RowText(rows[0], level);
  }

  lemma {:induction false} EntryRowsText(b: ProjectStructureBuilder, e: Entry, level: nat)
    ensures Text(EntryRows(b, e), level) == EntryText(b, e, level)
    decreases e, 1
  {
    if !Survives(b, e) {
    } else if e.File? {
      HeadRowText(e, level);
    } else {
      var sub := ListingRows(b, e, Ordered(e.children));
      var head, under := [Row([e.name], true)], Under(e.name, sub);
      var line, listing := Line(e, level), Listing(b, e, Ordered(e.children), level + 1);
      HeadRowText(e, level);
      TextUnder(e.name, sub, level);
      TextConcat(head, under, level);
      ListingRowsText(b, e, Ordered(e.children), level + 1);
      assert EntryRows(b, e) == head + under;
      assert EntryText(b, e, level) == line + listing;
      assert Text(head + under, level) == line + listing;
    }
  }

  /** `_get_structure` writes one line per row, in row order: a row at path
      depth k is indented by `level + k - 1` units, and a directory's row is
      followed at once by the rows of its contents (pre-order). */
  lemma StructureIsRows(b: ProjectStructureBuilder, d: Entry, level: nat)
    requires d.Dir?
    ensures AllNonEmpty(StructureRows(b, d))
    ensures Structure(b, d, level) == Text(StructureRows(b, d), level)
  {
    ListingRowsText(b, d, Ordered(d.children), level);
  }

  // ---------------------------------------------------------------------
  // Which lines appear.

  /** The entry `e` has a line for `path` (relative to e's directory):
      `path` leads from `e` down through directories, and no entry on the
      way is ignored or is neither a directory nor a file. */
  ghost predicate Shows(b: ProjectStructureBuilder, e: Entry, path: seq<string>, isDir: bool)
    decreases e
  {
    && |path| >= 1 && path[0] == e.name
    && e.name !in b.ignorePatterns && !e.Other?
    && if |path| == 1 then isDir == e.Dir?
       else e.Dir? && exists c :: c in e.children && Shows(b, c, path[1..], isDir)
  }

  lemma {:induction false} UnderMembers(name: string, rows: seq<Row>, path: seq<string>, isDir: bool)
    requires AllNonEmpty(rows)
    ensures Row(path, isDir) in Under(name, rows)
        <==> |path| >= 2 && path[0] == name && Row(path[1..], isDir) in rows
  {
    var u := Under(name, rows);
    if Row(path, isDir) in u {
      var i :| 0 <= i < |u| && u[i] == Row(path, isDir);
      assert rows[i] in rows;
      assert path[1..] == rows[i].path;
    }
    if |path| >= 2 && path[0] == name && Row(path[1..], isDir) in rows {
      var i :| 0 <= i < |rows| && rows[i] == Row(path[1..], isDir);
      assert u[i] == Row(path, isDir);
    }
  }

  /** One step of the listing: the rows of `es` are those of its prefix,
      then those of its last entry. */
  lemma ListingRowsMembersStep(b: ProjectStructureBuilder, d: Entry, es: seq<Entry>)
    requires d.Dir? && forall e | e in es :: e in d.children
    requires es != []
    ensures forall e | e in es[..|es| - 1] :: e in d.children
    ensures forall r :: (r in ListingRows(b, d, es)
      <==> r in ListingRows(b, d, es[..|es| - 1]) || r in EntryRows(b, es[|es| - 1]))
  {
  }

  lemma {:induction false} ListingRowsMembers(b: ProjectStructureBuilder, d: Entry, es: seq<Entry>, path: seq<string>, isDir: bool)
    requires d.Dir? && forall e | e in es :: e in d.children
    ensures Row(path, isDir) in ListingRows(b, d, es) <==> exists c :: c in es && Shows(b, c, path, isDir)
    decreases d, 0, |es|
  {
    if es != [] {
      var init, e := es[..|es| - 1], es[|es| - 1];
      assert e in d.children;
      ListingRowsMembersStep(b, d, es);
      ListingRowsMembers(b, d, init, path, isDir);
      EntryRowsMembers(b, e, path, isDir);
      if exists c :: c in es && Shows(b, c, path, isDir) {
        var c :| c in es && Shows(b, c, path, isDir);
        if c != e {
          assert c in init by { assert es == init + [e]; }
        }
      }
      if exists c :: c in init && Shows(b, c, path, isDir) {
        var c :| c in init && Shows(b, c, path, isDir);
        assert c in es;
      }
    }
  }

  lemma {:induction false} EntryRowsMembers(b: ProjectStructureBuilder, e: Entry, path: seq<string>, isDir: bool)
    ensures Row(path, isDir) in EntryRows(b, e) <==> Shows(b, e, path, isDir)
    decreases e, 1
  {
    if !Survives(b, e) {
    } else if e.File? {
      if |path| == 1 { assert path == [path[0]]; }
    } else {
      var sub := ListingRows(b, e, Ordered(e.children));
      var head := [Row([e.name], true)];
      assert EntryRows(b, e) == head + Under(e.name, sub);
      UnderMembers(e.name, sub, path, isDir);
      if |path| >= 2 {
        assert Row(path, isDir) !in head;
        ListingRowsMembers(b, e, Ordered(e.children), path[1..], isDir);
        if exists c :: c in e.children && Shows(b, c, path[1..], isDir) {
          var c :| c in e.children && Shows(b, c, path[1..], isDir);
          assert c in Ordered(e.children);
          assert exists c :: c in Ordered(e.children) && Shows(b, c, path[1..], isDir);
        }
        if exists c :: c in Ordered(e.children) && Shows(b, c, path[1..], isDir) {
          var c :| c in Ordered(e.children) && Shows(b, c, path[1..], isDir);
          assert c in e.children;
          assert exists c :: c in e.children && Shows(b, c, path[1..], isDir);
        }
        assert Shows(b, e, path, isDir)
          <==> path[0] == e.name && exists c :: c in e.children && Shows(b, c, path[1..], isDir);
        assert Row(path, isDir) in EntryRows(b, e)
          <==> path[0] == e.name && exists c :: c in Ordered(e.children) && Shows(b, c, path[1..], isDir);
      } else if |path| == 1 {
        assert path == [path[0]];
      }
    }
  }

  /** Exactly the shown entries of `d` have a line: a row is in the
      rendering of `d` if and only if some entry of `d` shows it. */
  lemma RowsAreShownEntries(b: ProjectStructureBuilder, d: Entry, path: seq<string>, isDir: bool)
    requires d.Dir?
    ensures Row(path, isDir) in StructureRows(b, d) <==> exists c :: c in d.children && Shows(b, c, path, isDir)
  {
    ListingRowsMembers(b, d, Ordered(d.children), path, isDir);
    if exists c :: c in d.children && Shows(b, c, path, isDir) {
      var c :| c in d.children && Shows(b, c, path, isDir);
      assert c in Ordered(d.children);
    }
  }

  lemma {:induction false} ShownPathAvoidsIgnored(b: ProjectStructureBuilder, e: Entry, path: seq<string>, isDir: bool)
    requires Shows(b, e, path, isDir)
    ensures forall i :: 0 <= i < |path| ==> path[i] !in b.ignorePatterns
    decreases e
  {
    if |path| > 1 {
      var c :| c in e.children && Shows(b, c, path[1..], isDir);
      ShownPathAvoidsIgnored(b, c, path[1..], isDir);
      assert forall i :: 1 <= i < |path| ==> path[i] == path[1..][i - 1];
    }
  }

  /** Ignore pruning: no line has an ignored name anywhere on its path, so
      an ignored entry has no line, and neither has anything below it. */
  lemma IgnoredArePruned(b: ProjectStructureBuilder, d: Entry, path: seq<string>, isDir: bool, i: nat)
    requires d.Dir? && Row(path, isDir) in StructureRows(b, d)
    requires i < |path|
    ensures path[i] !in b.ignorePatterns
  {
    RowsAreShownEntries(b, d, path, isDir);
    var c :| c in d.children && Shows(b, c, path, isDir);
    ShownPathAvoidsIgnored(b, c, path, isDir);
  }

  // ---------------------------------------------------------------------
  // An empty listing.

  lemma {:induction false} TextEmpty(rows: seq<Row>, level: nat)
    requires AllNonEmpty(rows)
    ensures Text(rows, level) == "" <==> rows == []
  {
    if rows != [] {
      var last := rows[|rows| - 1];
      assert last in rows;
      assert |RowText(last, level)| > 0;
    }
  }

  /** A directory renders no lines at all exactly when each of its entries
      is ignored or is neither a directory nor a file. */
  lemma StructureEmpty(b: ProjectStructureBuilder, d: Entry, level: nat)
    requires d.Dir?
    ensures Structure(b, d, level) == "" <==> forall c | c in d.children :: c.name in b.ignorePatterns || c.Other?
  {
    StructureIsRows(b, d, level);
    var rows := StructureRows(b, d);
    TextEmpty(rows, level);
    if rows != [] {
      var r := rows[0];
      RowsAreShownEntries(b, d, r.path, r.isDir);
      var c :| c in d.children && Shows(b, c, r.path, r.isDir);
    } else {
      forall c | c in d.children ensures c.name in b.ignorePatterns || c.Other? {
        RowsAreShownEntries(b, d, [c.name], c.Dir?);
      }
    }
  }

  /** `build()` on a root without surviving entries is the header alone, and
      only then. */
  lemma EmptyDirectory(b: ProjectStructureBuilder, root: Entry)
    requires root.Dir?
    ensures Rendered(b, root) == Ok(Basename(b.baseDir) + "/\n")
        <==> forall c | c in root.children :: c.name in b.ignorePatterns || c.Other?
  {
    StructureEmpty(b, root, 0);
    var h, s := Header(b), Structure(b, root, 0);
    assert h + s == h <==> s == [] by {
      if h + s == h { assert |s| == 0; }
    }
  }
}
