/** How many lines the builder writes: one per entry that survives, counted
    on the tree as listed, so the sorting neither loses nor repeats one. */
module LineCount {
  import opened Paths
  import opened Ordering
  import opened Builder
  import opened Rows

  /** The surviving entries among `es` (entries of the directory `d`) and
      below them, in listing order. */
  function CountAll(b: ProjectStructureBuilder, d: Entry, es: seq<Entry>): nat
    requires d.Dir? && forall e | e in es :: e in d.children
    decreases d, 0, |es|
  {
    if es == [] then 0
    else
      var e := es[|es| - 1];
      assert e in d.children;
      CountAll(b, d, es[..|es| - 1]) + CountEntry(b, e)
  }

  /** `e` itself, unless it is ignored or neither a directory nor a file,
      plus, for a directory, what it contains. */
  function CountEntry(b: ProjectStructureBuilder, e: Entry): nat
    decreases e, 1
  {
    if !Survives(b, e) then 0
    else if e.File? then 1
    else 1 + CountAll(b, e, e.children)
  }

  lemma {:induction false} CountConcat(b: ProjectStructureBuilder, d: Entry, a: seq<Entry>, c: seq<Entry>)
    requires d.Dir? && forall e | e in a + c :: e in d.children
    ensures CountAll(b, d, a + c) == CountAll(b, d, a) + CountAll(b, d, c)
    decreases |c|
  {
    if c == [] {
      assert a + c == a;
    } else {
      var c' := c[..|c| - 1];
      assert (a + c)[..|a + c| - 1] == a + c';
      assert forall e | e in a + c' :: e in a + c;
      CountConcat(b, d, a, c');
    }
  }

  /** Taking out the entry at position `k` takes out exactly its count. */
  lemma CountRemove(b: ProjectStructureBuilder, d: Entry, c: seq<Entry>, k: nat)
    requires d.Dir? && forall e | e in c :: e in d.children
    requires k < |c|
    ensures forall e | e in c[..k] + c[k + 1..] :: e in d.children
    ensures CountAll(b, d, c) == CountAll(b, d, c[..k] + c[k + 1..]) + CountEntry(b, c[k])
  {
    var left, x, right := c[..k], c[k], c[k + 1..];
    assert c == (left + [x]) + right;
    assert forall e | e in left + right :: e in c;
    CountConcat(b, d, left + [x], right);
    CountConcat(b, d, left, [x]);
    CountConcat(b, d, left, right);
    assert [x][..0] == [];
  }

  lemma MultisetRemove(a: seq<Entry>, c: seq<Entry>, k: nat)
    requires multiset(a) == multiset(c) && a != [] && k < |c| && c[k] == a[|a| - 1]
    ensures multiset(a[..|a| - 1]) == multiset(c[..k] + c[k + 1..])
  {
    var x := a[|a| - 1];
    assert a == a[..|a| - 1] + [x];
    assert c == c[..k] + [x] + c[k + 1..];
    var m1, m2 := multiset(a[..|a| - 1]), multiset(c[..k] + c[k + 1..]);
    assert multiset(a) == m1 + multiset{x};
    assert m2 == multiset(c[..k]) + multiset(c[k + 1..]);
    assert multiset(c) == m2 + multiset{x};
    assert m1 == multiset(a) - multiset{x};
    assert m2 == multiset(c) - multiset{x};
  }

  /** Reordering the entries does not change the count. */
  lemma {:induction false} CountPermutation(b: ProjectStructureBuilder, d: Entry, a: seq<Entry>, c: seq<Entry>)
    requires d.Dir? && forall e | e in a :: e in d.children
    requires multiset(a) == multiset(c)
    ensures forall e | e in c :: e in d.children
    ensures CountAll(b, d, a) == CountAll(b, d, c)
    decreases |a|
  {
    assert forall e | e in c :: e in d.children by {
      forall e | e in c ensures e in d.children {
        assert e in multiset(c);
      }
    }
    if a == [] {
      assert |c| == |multiset(c)| == 0;
    } else {
      var n := |a|;
      var x := a[n - 1];
      assert x in multiset(c);
      var k :| 0 <= k < |c| && c[k] == x;
      MultisetRemove(a, c, k);
      CountRemove(b, d, c, k);
      CountPermutation(b, d, a[..n - 1], c[..k] + c[k + 1..]);
    }
  }

  lemma {:induction false} CountSplit(b: ProjectStructureBuilder, d: Entry, es: seq<Entry>)
    requires d.Dir? && forall e | e in es :: e in d.children
    ensures CountAll(b, d, Dirs(es)) + CountAll(b, d, Files(es)) == CountAll(b, d, es)
  {
    if es != [] {
      var x, rest := es[0], es[1..];
      assert es == [x] + rest;
      CountSplit(b, d, rest);
      CountConcat(b, d, [x], rest);
      assert [x][..0] == [];
      var dx := if x.Dir? then [x] else [];
      var fx := if x.File? then [x] else [];
      CountConcat(b, d, dx, Dirs(rest));
      CountConcat(b, d, fx, Files(rest));
      if x.Dir? { assert dx[..0] == []; }
      if x.File? { assert fx[..0] == []; }
    }
  }

  /** Visiting the directories, then the files, each group sorted, counts as
      many entries as the directory holds. */
  lemma CountOrdered(b: ProjectStructureBuilder, d: Entry, es: seq<Entry>)
    requires d.Dir? && forall e | e in es :: e in d.children
    ensures CountAll(b, d, Ordered(es)) == CountAll(b, d, es)
  {
    var dirs, files := Dirs(es), Files(es);
    CountPermutation(b, d, dirs, SortBy(dirs, DirKey));
    CountPermutation(b, d, files, SortBy(files, FileKey));
    CountConcat(b, d, SortBy(dirs, DirKey), SortBy(files, FileKey));
    CountSplit(b, d, es);
  }

  lemma {:induction false} ListingRowsCount(b: ProjectStructureBuilder, d: Entry, es: seq<Entry>)
    requires d.Dir? && forall e | e in es :: e in d.children
    ensures |ListingRows(b, d, es)| == CountAll(b, d, es)
    decreases d, 0, |es|
  {
    if es != [] {
      var e := es[|es| - 1];
      assert e in d.children;
      ListingRowsCount(b, d, es[..|es| - 1]);
      EntryRowsCount(b, e);
    }
  }

  lemma {:induction false} EntryRowsCount(b: ProjectStructureBuilder, e: Entry)
    ensures |EntryRows(b, e)| == CountEntry(b, e)
    decreases e, 1
  {
    if Survives(b, e) && e.Dir? {
      ListingRowsCount(b, e, Ordered(e.children));
      CountOrdered(b, e, e.children);
    }
  }

  /** One row per surviving entry. */
  lemma StructureRowCount(b: ProjectStructureBuilder, d: Entry)
    requires d.Dir?
    ensures |StructureRows(b, d)| == CountAll(b, d, d.children)
  {
    ListingRowsCount(b, d, Ordered(d.children));
    CountOrdered(b, d, d.children);
  }

  /** The number of line breaks in `s`. */
  function Newlines(s: string): nat
  {
    if s == [] then 0 else (if s[0] == '\n' then 1 else 0) + Newlines(s[1..])
  }

  lemma {:induction false} NewlinesConcat(a: string, c: string)
    ensures Newlines(a + c) == Newlines(a) + Newlines(c)
  {
    if a != [] {
      assert (a + c)[0] == a[0] && (a + c)[1..] == a[1..] + c;
      NewlinesConcat(a[1..], c);
      assert Newlines(a + c) == (if a[0] == '\n' then 1 else 0) + Newlines(a[1..] + c);
      assert Newlines(a) == (if a[0] == '\n' then 1 else 0) + Newlines(a[1..]);
    } else {
      assert a + c == c;
    }
  }

  lemma {:induction false} IndentNewlines(level: nat)
    ensures Newlines(Indent(level)) == 0
  {
    if level > 0 {
      IndentNewlines(level - 1);
      NewlinesConcat(IndentUnit, Indent(level - 1));
    }
  }

  lemma {:induction false} NewlinesOfName(s: string)
    requires '\n' !in s
    ensures Newlines(s) == 0
  {
    if s != [] { NewlinesOfName(s[1..]); }
  }

  lemma RowTextNewlines(r: Row, level: nat)
    requires |r.path| >= 1 && '\n' !in r.path[|r.path| - 1]
    ensures Newlines(RowText(r, level)) == 1
  {
    var indent, name := Indent(level + |r.path| - 1), r.path[|r.path| - 1];
    var tail := if r.isDir then "/\n" else "\n";
    IndentNewlines(level + |r.path| - 1);
    NewlinesOfName(name);
    NewlinesOfName(Branch);
    NewlinesConcat(indent, Branch);
    NewlinesConcat(indent + Branch, name);
    NewlinesConcat(indent + Branch + name, tail);
    assert Newlines(tail) == 1 by {
      if r.isDir { assert tail[1..] == "\n" && "\n"[1..] == []; }
      else { assert tail[1..] == []; }
    }
    assert RowText(r, level) == indent + Branch + name + tail;
  }

  lemma {:induction false} TextNewlines(rows: seq<Row>, level: nat)
    requires AllNonEmpty(rows)
    requires forall r | r in rows :: '\n' !in r.path[|r.path| - 1]
    ensures Newlines(Text(rows, level)) == |rows|
  {
    if rows != [] {
      var init, last := rows[..|rows| - 1], rows[|rows| - 1];
      assert last in rows;
      TextNewlines(init, level);
      RowTextNewlines(last, level);
      NewlinesConcat(Text(init, level), RowText(last, level));
    }
  }

  lemma {:induction false} ShownPathAvoids(b: ProjectStructureBuilder, e: Entry, path: seq<string>, isDir: bool, ch: char)
    requires Shows(b, e, path, isDir) && NamesAvoid(e, ch)
    ensures forall i :: 0 <= i < |path| ==> ch !in path[i]
    decreases e
  {
    if |path| > 1 {
      var c :| c in e.children && Shows(b, c, path[1..], isDir);
      ShownPathAvoids(b, c, path[1..], isDir, ch);
      assert forall i :: 1 <= i < |path| ==> path[i] == path[1..][i - 1];
    }
  }

  /** When no name holds a line break, `build()` returns exactly one line for
      the header plus one line per surviving entry. */
  lemma BuildLineCount(b: ProjectStructureBuilder, root: Entry)
    requires root.Dir? && '\n' !in Basename(b.baseDir)
    requires forall c | c in root.children :: NamesAvoid(c, '\n')
    ensures Rendered(b, root).Ok?
    ensures Newlines(Rendered(b, root).value) == 1 + CountAll(b, root, root.children)
  {
    var rows := StructureRows(b, root);
    StructureIsRows(b, root, 0);
    StructureRowCount(b, root);
    forall r | r in rows ensures '\n' !in r.path[|r.path| - 1] {
      RowsAreShownEntries(b, root, r.path, r.isDir);
      var c :| c in root.children && Shows(b, c, r.path, r.isDir);
      ShownPathAvoids(b, c, r.path, r.isDir, '\n');
    }
    TextNewlines(rows, 0);
    NewlinesOfName(Basename(b.baseDir));
    NewlinesConcat(Basename(b.baseDir), "/\n");
    NewlinesConcat(Header(b), Text(rows, 0));
  }
}
