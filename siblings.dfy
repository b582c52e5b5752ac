/** The order of the lines that stand for the entries of one directory:
    directories before files, directories by plain string order, files by
    their lower-cased names. */
module Siblings {
  import opened Ordering
  import opened Builder
  import opened Rows

  /** `x` may be listed before `y` in one directory's listing. */
  predicate EntriesInOrder(x: Entry, y: Entry)
  {
    && (x.File? ==> y.File?)
    && (x.Dir? && y.Dir? ==> LexLe(x.name, y.name))
    && (x.File? && y.File? ==> LexLe(CustomSort(x.name), CustomSort(y.name)))
  }

  ghost predicate EntryOrder(es: seq<Entry>)
  {
    forall i, j :: 0 <= i < j < |es| ==> EntriesInOrder(es[i], es[j])
  }

  /** The same order read off two lines of depth one. */
  predicate RowsInOrder(r: Row, s: Row)
  {
    && |r.path| == 1 && |s.path| == 1
    && (!r.isDir ==> !s.isDir)
    && (r.isDir && s.isDir ==> LexLe(r.path[0], s.path[0]))
    && (!r.isDir && !s.isDir ==> LexLe(CustomSort(r.path[0]), CustomSort(s.path[0])))
  }

  ghost predicate RowOrder(rows: seq<Row>)
  {
    forall i, j :: 0 <= i < j < |rows| ==> RowsInOrder(rows[i], rows[j])
  }

  /** The lines of depth one: those of the listed directory's own entries. */
  function TopRows(rows: seq<Row>): seq<Row>
  {
    if rows == [] then []
    else TopRows(rows[..|rows| - 1]) + (if |rows[|rows| - 1].path| == 1 then [rows[|rows| - 1]] else [])
  }

  function HeadRow(e: Entry): Row { Row([e.name], e.Dir?) }

  /** One line per surviving entry of `es`, in the order of `es`. */
  function Heads(b: ProjectStructureBuilder, es: seq<Entry>): seq<Row>
  {
    if es == [] then []
    else Heads(b, es[..|es| - 1]) + (if Survives(b, es[|es| - 1]) then [HeadRow(es[|es| - 1])] else [])
  }

  lemma {:induction false} TopRowsConcat(a: seq<Row>, c: seq<Row>)
    ensures TopRows(a + c) == TopRows(a) + TopRows(c)
    decreases |c|
  {
    if c == [] {
      assert a + c == a;
    } else {
      var c' := c[..|c| - 1];
      assert (a + c)[..|a + c| - 1] == a + c';
      TopRowsConcat(a, c');
    }
  }

  lemma {:induction false} TopRowsUnder(name: string, rows: seq<Row>)
    requires AllNonEmpty(rows)
    ensures TopRows(Under(name, rows)) == []
  {
    if rows != [] {
      var u := Under(name, rows);
      assert rows[|rows| - 1] in rows;
      assert u[..|u| - 1] == Under(name, rows[..|rows| - 1]);
      TopRowsUnder(name, rows[..|rows| - 1]);
    }
  }

  lemma TopOfEntryRows(b: ProjectStructureBuilder, e: Entry)
    ensures TopRows(EntryRows(b, e)) == if Survives(b, e) then [HeadRow(e)] else []
  {
    if Survives(b, e) {
      var head := [HeadRow(e)];
      assert head[..0] == [];
      if e.Dir? {
        var sub := ListingRows(b, e, Ordered(e.children));
        TopRowsConcat(head, Under(e.name, sub));
        TopRowsUnder(e.name, sub);
      }
    }
  }

  lemma {:induction false} TopOfListingRows(b: ProjectStructureBuilder, d: Entry, es: seq<Entry>)
    requires d.Dir? && forall e | e in es :: e in d.children
    ensures TopRows(ListingRows(b, d, es)) == Heads(b, es)
  {
    if es != [] {
      var e := es[|es| - 1];
      assert e in d.children;
      TopOfListingRows(b, d, es[..|es| - 1]);
      TopRowsConcat(ListingRows(b, d, es[..|es| - 1]), EntryRows(b, e));
      TopOfEntryRows(b, e);
    }
  }

  /** The sorted directories are in listing order among themselves. */
  lemma SortedDirsInOrder(es: seq<Entry>)
    ensures forall e | e in SortBy(Dirs(es), DirKey) :: e.Dir?
    ensures EntryOrder(SortBy(Dirs(es), DirKey))
  {
    var r := SortBy(Dirs(es), DirKey);
    SortByMembers(Dirs(es), DirKey);
    SortByIsSorted(Dirs(es), DirKey);
    forall i, j | 0 <= i < j < |r| ensures EntriesInOrder(r[i], r[j]) {
      assert r[i] in r && r[j] in r;
      assert LexLe(DirKey(r[i]), DirKey(r[j]));
    }
  }

  /** The sorted files are in listing order among themselves. */
  lemma SortedFilesInOrder(es: seq<Entry>)
    ensures forall e | e in SortBy(Files(es), FileKey) :: e.File?
    ensures EntryOrder(SortBy(Files(es), FileKey))
  {
    var r := SortBy(Files(es), FileKey);
    SortByMembers(Files(es), FileKey);
    SortByIsSorted(Files(es), FileKey);
    forall i, j | 0 <= i < j < |r| ensures EntriesInOrder(r[i], r[j]) {
      assert r[i] in r && r[j] in r;
      assert LexLe(FileKey(r[i]), FileKey(r[j]));
    }
  }

  /** Directories in order followed by files in order are in order. */
  lemma ConcatInOrder(dirs: seq<Entry>, files: seq<Entry>)
    requires forall e | e in dirs :: e.Dir?
    requires forall e | e in files :: e.File?
    requires EntryOrder(dirs) && EntryOrder(files)
    ensures EntryOrder(dirs + files)
  {
    var r := dirs + files;
    forall i, j | 0 <= i < j < |r| ensures EntriesInOrder(r[i], r[j]) {
      if j < |dirs| {
        assert r[i] == dirs[i] && r[j] == dirs[j];
      } else if i >= |dirs| {
        assert r[i] == files[i - |dirs|] && r[j] == files[j - |dirs|];
      } else {
        assert r[i] == dirs[i] && r[j] == files[j - |dirs|];
        assert r[i] in dirs && r[j] in files;
      }
    }
  }

  /** The visiting order `dirs + files` is a listing order, and visits no
      entry that is neither a directory nor a file. */
  lemma OrderedInOrder(es: seq<Entry>)
    ensures EntryOrder(Ordered(es))
    ensures forall e | e in Ordered(es) :: !e.Other?
  {
    SortedDirsInOrder(es);
    SortedFilesInOrder(es);
    ConcatInOrder(SortBy(Dirs(es), DirKey), SortBy(Files(es), FileKey));
  }

  /** The visiting order holds every directory and every file exactly as
      often as the listing does; after the directories come the files, and
      files with equal lower-cased names keep their listing order. */
  lemma OrderedPermutesAndKeepsFileOrder(es: seq<Entry>, k: string)
    ensures multiset(Ordered(es)) == multiset(Dirs(es)) + multiset(Files(es))
    ensures |Dirs(es)| <= |Ordered(es)|
    ensures WithKey(Ordered(es)[|Dirs(es)|..], FileKey, k) == WithKey(Files(es), FileKey, k)
    ensures WithKey(Ordered(es)[|Dirs(es)|..], FileKey, k) == Files(WithKey(es, FileKey, k))
  {
    FilesKeepListingOrder(es, k);
    var dirs, files := SortBy(Dirs(es), DirKey), SortBy(Files(es), FileKey);
    assert |dirs| == |multiset(dirs)| == |Dirs(es)|;
    assert Ordered(es)[|Dirs(es)|..] == files;
    SortByIsStable(Files(es), FileKey, k);
  }

  /** A listing of directories only is visited as its sorted directories. */
  lemma {:induction false} OnlyDirs(es: seq<Entry>)
    requires forall e | e in es :: e.Dir?
    ensures Dirs(es) == es && Files(es) == []
  {
    if es != [] {
      assert forall e | e in es[1..] :: e in es;
      OnlyDirs(es[1..]);
      assert es == [es[0]] + es[1..];
    }
  }

  /** A listing of files only is visited as its sorted files. */
  lemma {:induction false} OnlyFiles(es: seq<Entry>)
    requires forall e | e in es :: e.File?
    ensures Files(es) == es && Dirs(es) == []
  {
    if es != [] {
      assert forall e | e in es[1..] :: e in es;
      OnlyFiles(es[1..]);
      assert es == [es[0]] + es[1..];
    }
  }

  lemma FilesCons(x: Entry, rest: seq<Entry>)
    ensures Files([x] + rest) == (if x.File? then [x] else []) + Files(rest)
  {
    assert ([x] + rest)[0] == x && ([x] + rest)[1..] == rest;
  }

  /** The file list keeps the listing order: for every key, its files with
      that key are the files among the listing's entries with that key, in
      the same order. */
  lemma {:induction false} FilesKeepListingOrder(es: seq<Entry>, k: string)
    ensures WithKey(Files(es), FileKey, k) == Files(WithKey(es, FileKey, k))
  {
    if es != [] {
      var x, rest := es[0], es[1..];
      assert es == [x] + rest;
      FilesKeepListingOrder(rest, k);
      FilesCons(x, rest);
      WithKeyCons(x, rest, FileKey, k);
      var f, t := Files(rest), WithKey(rest, FileKey, k);
      if x.File? {
        assert Files(es) == [x] + f;
        WithKeyCons(x, f, FileKey, k);
        if FileKey(x) == k {
          assert WithKey(es, FileKey, k) == [x] + t;
          FilesCons(x, t);
        } else {
          assert WithKey(Files(es), FileKey, k) == WithKey(f, FileKey, k);
          assert WithKey(es, FileKey, k) == t;
        }
      } else {
        assert Files(es) == f;
        if FileKey(x) == k {
          assert WithKey(es, FileKey, k) == [x] + t;
          FilesCons(x, t);
          assert Files([x] + t) == Files(t);
        } else {
          assert WithKey(es, FileKey, k) == t;
        }
      }
    }
  }

  /** Two elements whose keys are out of order are swapped by the sort. */
  lemma SortTwo<T>(x: T, y: T, key: T -> string)
    requires !LexLe(key(x), key(y))
    ensures SortBy([x, y], key) == [y, x]
  {
    assert [x, y][1..] == [y] && [y][1..] == [];
    assert SortBy([y], key) == [y];
    assert Insert(x, [y], key) == [y] + Insert(x, [], key);
  }

  lemma KeysOfAAndB()
    ensures !LexLe(DirKey(Dir("a", [])), DirKey(Dir("B", [])))
  {
    assert "a"[0] == 'a' && "B"[0] == 'B';
  }

  /** Directories are ordered case-sensitively: `B` comes before `a`. */
  lemma DirectoriesSortCaseSensitively()
    ensures Ordered([Dir("a", []), Dir("B", [])]) == [Dir("B", []), Dir("a", [])]
  {
    var a, bee := Dir("a", []), Dir("B", []);
    var two := [a, bee];
    OnlyDirs(two);
    KeysOfAAndB();
    SortTwo(a, bee, DirKey);
    var dirs, files := SortBy(Dirs(two), DirKey), SortBy(Files(two), FileKey);
    assert dirs == [bee, a] && files == [];
    assert Ordered(two) == dirs + files;
  }

  lemma KeysOfBAndA()
    ensures FileKey(File("B")) == "b" && FileKey(File("a")) == "a"
  {
    assert CustomSort("B")[0] == 'b' && CustomSort("a")[0] == 'a';
  }

  /** Files are not: `a` comes before `B`. */
  lemma FilesSortCaseInsensitively()
    ensures Ordered([File("B"), File("a")]) == [File("a"), File("B")]
  {
    var bee, a := File("B"), File("a");
    var two := [bee, a];
    OnlyFiles(two);
    KeysOfBAndA();
    assert !LexLe("b", "a");
    SortTwo(bee, a, FileKey);
    var dirs, files := SortBy(Dirs(two), DirKey), SortBy(Files(two), FileKey);
    assert dirs == [] && files == [a, bee];
    assert Ordered(two) == dirs + files;
  }

  lemma HeadsMembers(b: ProjectStructureBuilder, es: seq<Entry>, h: Row)
    requires h in Heads(b, es)
    ensures exists k :: 0 <= k < |es| && Survives(b, es[k]) && h == HeadRow(es[k])
  {
    if es != [] {
      var init := es[..|es| - 1];
      if h in Heads(b, init) {
        HeadsMembers(b, init, h);
        var k :| 0 <= k < |init| && Survives(b, init[k]) && h == HeadRow(init[k]);
        assert es[k] == init[k];
      } else {
        assert Survives(b, es[|es| - 1]) && h == HeadRow(es[|es| - 1]);
      }
    }
  }

  lemma {:induction false} HeadsInOrder(b: ProjectStructureBuilder, es: seq<Entry>)
    requires EntryOrder(es)
    ensures RowOrder(Heads(b, es))
  {
    if es != [] {
      var n := |es|;
      var init, x := es[..n - 1], es[n - 1];
      assert EntryOrder(init) by {
        forall i, j | 0 <= i < j < |init| ensures EntriesInOrder(init[i], init[j]) {
          assert init[i] == es[i] && init[j] == es[j];
        }
      }
      HeadsInOrder(b, init);
      var h := Heads(b, init);
      if Survives(b, x) {
        var r := h + [HeadRow(x)];
        forall i, j | 0 <= i < j < |r| ensures RowsInOrder(r[i], r[j]) {
          if j < |h| {
            assert r[i] == h[i] && r[j] == h[j];
          } else {
            assert r[i] == h[i] && h[i] in h && r[j] == HeadRow(x);
            HeadsMembers(b, init, h[i]);
            var k :| 0 <= k < |init| && Survives(b, init[k]) && h[i] == HeadRow(init[k]);
            assert EntriesInOrder(es[k], es[n - 1]);
          }
        }
      }
    }
  }

  /** Within one directory, the lines of its own entries are in listing
      order: every directory line comes before every file line, directory
      names ascend in plain code-point order and file names ascend by their
      lower-cased form; and they are one line per surviving entry, in the
      visiting order. */
  lemma SiblingOrder(b: ProjectStructureBuilder, d: Entry)
    requires d.Dir?
    ensures TopRows(StructureRows(b, d)) == Heads(b, Ordered(d.children))
    ensures RowOrder(TopRows(StructureRows(b, d)))
  {
    TopOfListingRows(b, d, Ordered(d.children));
    OrderedInOrder(d.children);
    HeadsInOrder(b, Ordered(d.children));
  }
}
