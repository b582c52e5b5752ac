# Project structure builder, in Dafny

This project models `ProjectStructureBuilder`, the class that renders a project directory as an indented text tree:

```
myproject/
├── src/
│   ├── main.py
├── README.md
```

The first line is the base name of the root directory followed by `/`. Below it comes one line per entry that is not ignored:

- A line is the indent `"│   "` repeated once per level of depth, then `"├── "`, then the entry's name, then `/` for a directory.
- Within one directory, the sub-directories come first, in plain string order. Then come the files, ordered by their lower-cased names.
- A directory's line is followed at once by the lines of its contents, so the listing is in pre-order.
- An entry is ignored when its base name is exactly one of the ignore patterns. Nothing below an ignored directory is listed.
- Entries that are neither directories nor files (broken links, sockets) get no line.

The file system is a finite snapshot: `Builder.Entry` is a tree of `Dir`, `File` and `Other` nodes. The order of each directory's `children` is the order in which `os.listdir` returns them. The builder's two fields never change after construction, so the builder is a datatype. The Python methods are:

- `_should_ignore` and `_custom_sort`: functions.
- `_get_structure`: a `method`, because the source builds its result with `+=` in a loop with `continue`. It is proved against the specification function `Builder.Structure`.
- `build` and `save_to_file`: methods on top of `_get_structure`.

The files:

- `paths.dfy`: `os.path.basename` and `os.path.join`, POSIX flavour.
- `ordering.dfy`: Python's `str` order, an ASCII `str.lower`, and the stable `sorted(..., key=...)`.
- `builder.dfy`: the builder, its specification functions and its methods.
- `rows.dfy`: a line-by-line view of the rendering. These lemmas prove which lines appear, that ignored subtrees are pruned, and when the output is the header alone.
- `linecount.dfy`: the number of lines is one plus the number of surviving entries, whatever the sort does.
- `siblings.dfy`: the order of the lines of one directory's entries.
- `example_trees.dfy`: trees and calls from the builder's test suite, worked out in full.

## Model

| member | source | states |
|---|---|---|
| Paths.Basename | src/structure/builder.py:12 | the base name holds no `/` |
| Paths.BasenameIsTail | src/structure/builder.py:12 | the base name is a tail of the path, and is preceded by a `/` when it is not the whole path: it is what follows the last separator |
| Paths.BasenameAfterSep | src/structure/builder.py:12 | a name without `/` after a prefix that is empty or ends in `/` is its own base name |
| Paths.BasenameStart | src/structure/builder.py:12 | a position starts the base name exactly when it is at the start of the path or just after a `/` and no `/` follows it |
| Paths.Join | src/structure/builder.py:26-29 | `os.path.join` for two components: the result ends with the name; an absolute name replaces the directory; otherwise the result starts with the directory, with a `/` inserted exactly when the directory is non-empty and does not end in `/` |
| Paths.BasenameOfJoin | src/structure/builder.py:26 | the base name of `join(directory, entry)` is `entry`, for every directory path, when the entry name has no `/` |
| Builder.ShouldIgnore | src/structure/builder.py:10-13 | a path is ignored exactly when the part after its last `/` (or the whole path, if it has no `/`) is one of the patterns |
| Builder.ShouldIgnoreEntry | src/structure/builder.py:10-13 | an entry reached by `join(directory, name)` is ignored if and only if `name` is exactly one of the patterns (no substring, glob or case folding) |
| Builder.PatternWithSepNeverMatches | src/structure/builder.py:12-13 | adding a pattern that holds `/` changes no ignore decision, because a base name never holds one |
| Ordering.Lower | src/structure/builder.py:42 | lower-casing keeps the length, leaves no ASCII capital, and changes a character only by mapping a capital to its small letter |
| Builder.CustomSort | src/structure/builder.py:40-42 | the file sort key has the name's length and holds no ASCII capital |
| Builder.CustomSortIgnoresCase | src/structure/builder.py:40-42 | two names that differ only in letter case have the same key |
| Ordering.LexLeTotal | src/structure/builder.py:21 | any two strings are comparable under Python's `<=` on `str` |
| Ordering.LexLeAntisymmetric | src/structure/builder.py:21 | two strings each `<=` the other are equal |
| Ordering.LexLeTransitive | src/structure/builder.py:21 | Python's `<=` on `str` is transitive |
| Ordering.Insert | src/structure/builder.py:21-22 | one insertion step of `sorted` adds exactly the inserted element (as a multiset) |
| Ordering.SortBy | src/structure/builder.py:21-22 | `sorted` returns a permutation of its input (equal multisets) |
| Ordering.SortByMembers | src/structure/builder.py:21-22 | `sorted` keeps exactly the elements of its input |
| Ordering.SortByIsSorted | src/structure/builder.py:21-22 | `sorted` returns its input in ascending order of the key, every pair of positions compared |
| Ordering.SortByIsStable | src/structure/builder.py:22 | for every key value, the elements with that key keep their input order, so two files whose lower-cased names agree stay in listing order |
| Builder.CustomSortExample | tests/structure/test_builder.py:75-82 | sorting `README.md`, `script.py`, `notes.txt` with `_custom_sort` as key gives `notes.txt`, `README.md`, `script.py` |
| Builder.Dirs | src/structure/builder.py:21 | the directory list has exactly the listed entries that are directories |
| Builder.DirsCount | src/structure/builder.py:21 | the directory list holds each directory exactly as often as the listing does, and nothing else |
| Builder.Files | src/structure/builder.py:22 | the file list has exactly the listed entries that are files |
| Builder.FilesCount | src/structure/builder.py:22 | the file list holds each file exactly as often as the listing does, and nothing else |
| Builder.Ordered | src/structure/builder.py:21-25 | the loop visits exactly the listed entries that are directories or files |
| Siblings.OrderedInOrder | src/structure/builder.py:21-25 | in the visiting order every directory precedes every file; directories ascend by name and files by lower-cased name; nothing else is visited |
| Siblings.FilesKeepListingOrder | src/structure/builder.py:22 | for every key, the files with that key in the file list are exactly the files with that key in the listing, in listing order |
| Siblings.OrderedPermutesAndKeepsFileOrder | src/structure/builder.py:21-25 | the visiting order holds each directory and each file as often as the listing does, and files with equal lower-cased names are visited in the order the listing has them |
| Siblings.SortTwo | src/structure/builder.py:21-22 | `sorted` swaps two elements whose keys are out of order |
| Siblings.DirectoriesSortCaseSensitively | src/structure/builder.py:21 | directories `a` and `B` are visited as `B`, then `a`: directory order is case-sensitive |
| Siblings.FilesSortCaseInsensitively | src/structure/builder.py:22 | files `B` and `a` are visited as `a`, then `B`: file order ignores case |
| Builder.Indent | src/structure/builder.py:30 | the indent at level L has 4·L characters |
| Builder.IndentRepeatsUnit | src/structure/builder.py:30 | character i of the indent is character i mod 4 of `"│   "` |
| Builder.LineShape | src/structure/builder.py:30-36 | the line `Line(e, L)` of the f-strings `f"{indent}├── {entry}/\n"` and `f"{indent}├── {entry}\n"` is, at its positions, the indent of level L (4·L characters), then `├── `, then the entry's name, then `/` for a directory, and it ends with a line break; its length is 4·L + 4 + the name's length + 2 for a directory or 1 for a file |
| Builder.GetStructure | src/structure/builder.py:16-38 | the loop over `dirs + files`, with `continue` on ignored entries and recursion into directories, returns `Structure(b, d, level)`: the concatenated texts of the visited entries, in order |
| Builder.Header | src/structure/builder.py:47 | the header is the part of the base directory's path after its last `/`, which holds no `/`, followed by `/` and a line break |
| Builder.Build | src/structure/builder.py:45-47 | `build()` returns the header `basename(base_dir) + "/\n"` followed by the root's structure at level 0, or the listing error when the root is not a directory |
| Builder.SaveToFile | src/structure/builder.py:49-54 | `save_to_file` fails exactly when `build()` fails, with the same error; otherwise it writes exactly `build()` to the given path and reports that path |
| Rows.StructureIsRows | src/structure/builder.py:25-38 | the structure is one line per row, in row order: a row at path depth k after level L is indented L+k-1 units, carries `├── ` and the last name, then `/` only for a directory; a directory's row is followed at once by the rows of its contents (pre-order) |
| Rows.RowsAreShownEntries | src/structure/builder.py:25-38 | a line for a path appears if and only if that path leads from an entry of the directory through directories, with no ignored entry and no entry that is neither a directory nor a file on the way |
| Rows.IgnoredArePruned | src/structure/builder.py:25-27 | no line has an ignored name anywhere on its path: an ignored directory prunes its whole subtree |
| Rows.StructureEmpty | src/structure/builder.py:25-38 | a directory renders no lines if and only if each of its entries is ignored or is neither a directory nor a file |
| Rows.EmptyDirectory | src/structure/builder.py:47 | `build()` on a root directory is the header `basename/\n` alone if and only if no entry of the root survives |
| LineCount.CountPermutation | src/structure/builder.py:21-22 | reordering a directory's entries does not change the number of surviving entries below them |
| LineCount.StructureRowCount | src/structure/builder.py:21-38 | the structure has one row for each surviving entry of the tree, counted in listing order, so sorting neither drops nor repeats an entry |
| LineCount.BuildLineCount | src/structure/builder.py:45-47 | when no name holds a line break, `build()` holds exactly 1 + N line breaks, N being the number of surviving entries |
| Siblings.SiblingOrder | src/structure/builder.py:21-36 | the depth-one lines of a directory are one per surviving entry, in visiting order: directory lines before file lines, directories ascending by name, files by lower-cased name |
| ExampleTrees.SingleDirListing | src/structure/builder.py:25-34 | a directory holding one sub-directory renders exactly that sub-directory's text |
| ExampleTrees.SingleFileListing | src/structure/builder.py:25-36 | a directory holding one file renders exactly that file's line |
| ExampleTrees.NestedDirectories | tests/structure/test_builder.py:84-95 | `parent/child/file.py` under `/tmp/t` renders as `t/`, `├── parent/`, `│   ├── child/`, `│   │   ├── file.py` |
| ExampleTrees.ShouldIgnoreExample | tests/structure/test_builder.py:68-73 | with pattern `ignore_this`, `/test/ignore_this` is ignored and `/test/not_ignored` is not |

## Left out

- File system access: `os.listdir`, `os.path.isdir` and `os.path.isfile` are replaced by the snapshot tree. The model has no concurrent changes, no symbolic-link cycles, and no link whose target's kind differs from one call to the next.
- Errors below the root: in the source, an unreadable sub-directory raises from the recursive `os.listdir`. The snapshot cannot express this, so only the root-not-a-directory error is modelled (`Builder.CannotList`).
- Ordering.Lower: lower-cases only the ASCII capitals. Python's `str.lower` also maps other Unicode letters, and a few of them become more than one character.
- Paths.Basename, Paths.Join: only the POSIX `posixpath` behaviour with separator `/`. Windows paths and bytes paths are not modelled.
- Builder.GetStructure, Builder.Build, Builder.SaveToFile: require that no name in the tree holds `/`. File names returned by `os.listdir` never do.
- The constructor's `ignore_patterns or []`: `None` and an empty list are both the empty sequence, so there is no separate constructor.
- Builder.SaveToFile: the file write, its UTF-8 encoding and the printed message are returned as a `Saved` record instead of being performed.
- Builder.SaveToFile: the failures of `open` and `write` (a missing directory, no permission, a full disk) are not modelled; the model fails only when `build()` does.
- Builder.SaveToFile: names that `os.listdir` returns with lone surrogate code points are not modelled. They are not Dafny `char` values, and the UTF-8 write rejects them.
- Builder.GetStructure: the model recurses to any depth. Python raises `RecursionError` once the nesting passes its recursion limit, about 1000 levels by default.
- The command-line front end (`src/cli.py`) and its tests are not part of this model.
- Directory order: the docstring of `_custom_sort` says files and folders are sorted case-insensitively. The code applies the key only to files and sorts directories by plain code-point order. The model follows the code; `Siblings.DirectoriesSortCaseSensitively` shows the difference.
