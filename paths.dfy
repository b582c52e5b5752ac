/** The two POSIX path operations the builder relies on: `os.path.basename`
    and `os.path.join` (the `posixpath` flavour, separator `/`). */
module Paths {

  const Sep: char := '/'

  /** `os.path.basename`: everything after the last separator, or the whole
      path when it has none (so a trailing separator gives the empty name). */
  function Basename(p: string): (r: string)
    ensures Sep !in r
  {
    if p == [] || p[|p| - 1] == Sep then [] else Basename(p[..|p| - 1]) + [p[|p| - 1]]
  }

  /** The base name starts at position `k` of the path, just after a
      separator when `k` is not 0. */
  lemma {:induction false} BasenameTailLen(p: string) returns (k: nat)
    ensures k <= |p| && Basename(p) == p[k..]
    ensures 0 < k ==> p[k - 1] == Sep
  {
    if p == [] || p[|p| - 1] == Sep {
      k := |p|;
    } else {
      var init, last := p[..|p| - 1], p[|p| - 1];
      assert p == init + [last];
      assert Basename(p) == Basename(init) + [last];
      k := BasenameTailLen(init);
      assert p[k..] == init[k..] + [last];
      if 0 < k {
        assert p[k - 1] == init[k - 1];
      }
    }
  }

  /** The base name is the tail of the path, and the character just before
      it, if any, is a separator. */
  lemma BasenameIsTail(p: string)
    ensures |Basename(p)| <= |p| && Basename(p) == p[|p| - |Basename(p)|..]
    ensures |Basename(p)| < |p| ==> p[|p| - |Basename(p)| - 1] == Sep
  {
    var k := BasenameTailLen(p);
  }

  /** A position `k` starts the base name exactly when it is at the start of
      the path or just after a separator and no separator follows it. */
  lemma BasenameStart(p: string, k: nat)
    requires k <= |p|
    ensures ((k == 0 || p[k - 1] == Sep) && Sep !in p[k..]) <==> p[k..] == Basename(p)
  {
    var k0 := BasenameTailLen(p);
    if p[k..] == Basename(p) {
      assert |p[k..]| == |p[k0..]|;
    }
  }

  /** `BasenameStart` for all positions at once, with the position where the
      base name does start. */
  lemma BasenameStarts(p: string)
    ensures |Basename(p)| <= |p|
    ensures forall k :: 0 <= k <= |p| ==>
      (((k == 0 || p[k - 1] == Sep) && Sep !in p[k..]) <==> p[k..] == Basename(p))
  {
    BasenameIsTail(p);
    forall k | 0 <= k <= |p|
      ensures ((k == 0 || p[k - 1] == Sep) && Sep !in p[k..]) <==> p[k..] == Basename(p)
    {
      BasenameStart(p, k);
    }
  }

  /** `os.path.join(dir, name)` for two components: an absolute `name`
      replaces `dir`; otherwise a separator is inserted unless `dir` is empty
      or already ends with one. */
  function Join(dir: string, name: string): (r: string)
    ensures |name| <= |r| && r[|r| - |name|..] == name
    ensures |name| > 0 && name[0] == Sep ==> r == name
    ensures !(|name| > 0 && name[0] == Sep) ==>
      && |dir| <= |r| && r[..|dir|] == dir
      && (|r| == |dir| + |name| || (|r| == |dir| + 1 + |name| && r[|dir|] == Sep))
    ensures !(|name| > 0 && name[0] == Sep) ==>
      (|r| == |dir| + 1 + |name| <==> dir != [] && dir[|dir| - 1] != Sep)
  {
    if |name| > 0 && name[0] == Sep then name
    else if dir == [] || dir[|dir| - 1] == Sep then dir + name
    else dir + [Sep] + name
  }

  /** A name without separators is its own base name after anything that is
      empty or ends in a separator. */
  lemma {:induction false} BasenameAfterSep(prefix: string, name: string)
    requires prefix == [] || prefix[|prefix| - 1] == Sep
    requires Sep !in name
    ensures Basename(prefix + name) == name
  {
    if name == [] {
      assert prefix + name == prefix;
    } else {
      var init := name[..|name| - 1];
      assert (prefix + name)[..|prefix + name| - 1] == prefix + init;
      BasenameAfterSep(prefix, init);
      assert name == init + [name[|name| - 1]];
    }
  }

  /** Joining a directory path with an entry name (as `os.listdir` returns
      it, so without separators) and taking the base name gives the entry
      name back, whatever the directory path is. */
  lemma BasenameOfJoin(dir: string, name: string)
    requires Sep !in name
    ensures Basename(Join(dir, name)) == name
  {
    if dir == [] || dir[|dir| - 1] == Sep {
      BasenameAfterSep(dir, name);
    } else {
      assert dir + [Sep] + name == (dir + [Sep]) + name;
      BasenameAfterSep(dir + [Sep], name);
    }
  }
}
