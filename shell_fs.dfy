/** The `DirDepth` of shell.go (shell.go:332-361), which compares its
    arguments as given, and the `currDepth` closure its `WalkTree` builds
    from it (shell.go:371-374). The walk functions themselves are the same
    text in both files and are modelled once, in `FsWalk`. */
module ShellFs {

  import opened Errors
  import opened GoStrings
  import opened Paths
  import opened FsWalk

  /** `DirDepth(root, path)`, with `os.Stat` and `filepath.Dir` as
      parameters. One trailing `/` is dropped from each argument; equal
      paths are at depth 0; a path that does not start with root (a textual
      test) is an error decided before `os.Stat`; a `Stat` failure is
      returned as it is; otherwise the depth is at least 1. */
  function DirDepth(root: string, path: string, stat: string -> StatResult, dir: string -> string): (d: Depth)
    ensures d.levels >= 0 && (d.err.Some? ==> d.levels == 0)
    ensures var r, p := StripSlash(root), StripSlash(path);
      && (r == p ==> d == Depth(0, None))
      && (r != p && !HasPrefix(p, r) ==> d == Depth(0, Some(Failure(r + " not a prefix of " + p))))
      && (r != p && HasPrefix(p, r) && stat(p).StatFailed? ==> d == Depth(0, Some(stat(p).err)))
      && (r != p && HasPrefix(p, r) && stat(p).Stat? ==> d.err == None && d.levels >= 1)
  {
    DepthBelow(StripSlash(root), StripSlash(path), stat, dir)
  }

  /** A trailing slash on root, or on path, makes no difference. */
  lemma TrailingSlashIgnored(root: string, path: string, stat: string -> StatResult, dir: string -> string)
    requires !HasSuffix(root, "/") && !HasSuffix(path, "/")
    ensures DirDepth(root + "/", path, stat, dir) == DirDepth(root, path, stat, dir)
    ensures DirDepth(root, path + "/", stat, dir) == DirDepth(root, path, stat, dir)
  {
    assert StripSlash(root + "/") == root by { assert HasSuffix(root + "/", "/"); }
    assert StripSlash(path + "/") == path by { assert HasSuffix(path + "/", "/"); }
  }

  /** A directory reached from root through `k` plain names is at depth `k`. */
  lemma {:induction false} SubdirectoryDepth(root: string, names: seq<string>, stat: string -> StatResult, dir: string -> string)
    requires !HasSuffix(root, "/")
    requires |names| >= 1 && PlainNames(names)
    requires stat(Below(root, names)) == Stat(true)
    ensures DirDepth(root, Below(root, names), stat, dir) == Depth(|names|, None)
  {
    JoinPlainEnds(names);
    var p := Below(root, names);
    assert p[|p| - 1..] == [p[|p| - 1]];
    DirectoryDepth(root, names, stat, dir);
  }

  /** A file whose parent directory is root is at depth 1. */
  lemma {:induction false} FileInRootDepthOne(root: string, path: string, stat: string -> StatResult, dir: string -> string)
    requires !HasSuffix(root, "/") && !HasSuffix(path, "/")
    requires root != path && HasPrefix(path, root)
    requires stat(path) == Stat(false) && dir(path) == root
    ensures DirDepth(root, path, stat, dir) == Depth(1, None)
  {
    FileInRootDepth(root, path, stat, dir);
  }

  /** A file is at the depth of its parent directory, as the comment on
      `DirDepth` says: when `filepath.Dir` of the file is a directory `k`
      plain names below root, both are at depth `k`. */
  lemma FileAtParentDepth(root: string, path: string, names: seq<string>,
                          stat: string -> StatResult, dir: string -> string)
    requires !HasSuffix(root, "/") && !HasSuffix(path, "/")
    requires root != path && HasPrefix(path, root)
    requires |names| >= 1 && PlainNames(names)
    requires stat(path) == Stat(false) && dir(path) == Below(root, names)
    requires stat(Below(root, names)) == Stat(true)
    ensures DirDepth(root, path, stat, dir) == Depth(|names|, None)
    ensures DirDepth(root, path, stat, dir) == DirDepth(root, dir(path), stat, dir)
  {
    FileInDirectoryDepth(root, path, names, stat, dir);
    SubdirectoryDepth(root, names, stat, dir);
  }

  /** The prefix test is on text, not on path elements: `/ab` counts as
      one level below `/a`. */
  lemma SiblingCountsAsBelow(stat: string -> StatResult, dir: string -> string)
    requires stat("/ab") == Stat(true)
    ensures DirDepth("/a", "/ab", stat, dir) == Depth(1, None)
  {
    assert StripSlash("/a") == "/a" && StripSlash("/ab") == "/ab";
    assert HasPrefix("/ab", "/a");
    assert ReplaceFirst("/ab", "/a", "") == "b";
    assert TrimChar("b", '/') == "b";
    SplitNoSep("b", '/');
  }

  /** Below the root ".", the walk builds paths without a leading "./"
      ("a", "a/b", ...). When the first element does not start with ".",
      the textual prefix test fails, the depth is an error with 0 levels,
      and `maxdepth` never prunes such a path. */
  lemma DotRootDepthZero(path: string, stat: string -> StatResult, dir: string -> string)
    requires path != [] && path[0] != '.'
    ensures DirDepth(".", path, stat, dir).levels == 0
    ensures DirDepth(".", path, stat, dir).err.Some?
  {
    assert StripSlash(".") == ".";
    var p := StripSlash(path);
    assert p != "." by { if p != [] { assert p[0] == path[0]; } }
    assert !HasPrefix(p, ".") by { if 1 <= |p| { assert p[..1][0] == path[0]; } }
  }

  /** Below the root ".", a path under a hidden entry (".git",
      ".git/hooks", ...) does start with ".": `Replace` removes that dot,
      and the depth is the number of elements of the path, so `maxdepth`
      prunes there. */
  lemma HiddenEntryDepth(names: seq<string>, stat: string -> StatResult, dir: string -> string)
    requires |names| >= 1 && PlainNames(names)
    requires |names[0]| >= 2 && names[0][0] == '.'
    requires stat(Join(names, "/")) == Stat(true)
    ensures DirDepth(".", Join(names, "/"), stat, dir) == Depth(|names|, None)
  {
    var p := Join(names, "/");
    var shown := [names[0][1..]] + names[1..];
    DotFirstJoin(names);
    JoinPlainEnds(names);
    JoinPlainEnds(shown);
    var j := Join(shown, "/");
    assert StripSlash(p) == p by { assert p[|p| - 1..] == [p[|p| - 1]]; }
    assert StripSlash(".") == ".";
    assert HasPrefix(p, ".") by { assert p[..1] == ['.']; }
    assert ReplaceFirst(p, ".", "") == j by { assert p[1..] == j; }
    assert TrimChar(j, '/') == j;
    assert "/" == ['/'];
    SplitJoin(shown, '/');
  }

  /** Joining names whose first one starts with "." is "." followed by
      the join with that dot removed. */
  lemma DotFirstJoin(names: seq<string>)
    requires |names| >= 1 && PlainNames(names)
    requires |names[0]| >= 2 && names[0][0] == '.'
    ensures PlainNames([names[0][1..]] + names[1..])
    ensures Join(names, "/") == ['.'] + Join([names[0][1..]] + names[1..], "/")
  {
    var shown := [names[0][1..]] + names[1..];
    assert '/' !in names[0][1..] by {
      forall k | 0 <= k < |names[0][1..]| ensures names[0][1..][k] != '/' {
        assert names[0][1..][k] == names[0][k + 1];
      }
    }
    assert names[0] == ['.'] + names[0][1..];
    if |names| > 1 {
      assert shown[1..] == names[1..];
    }
  }

  /** `WalkTree`'s `currDepth`: the depth `DirDepth` gives when it
      succeeds, and 0 when it fails, its error dropped. */
  function DepthIn(root: string, stat: string -> StatResult, dir: string -> string): (depthOf: string -> int)
    ensures depthOf(root) == 0
    ensures forall p :: depthOf(p) >= 0
    ensures forall p :: DirDepth(root, p, stat, dir).err.Some? ==> depthOf(p) == 0
    ensures forall p :: DirDepth(root, p, stat, dir).err.None? ==> depthOf(p) == DirDepth(root, p, stat, dir).levels
  {
    p => DirDepth(root, p, stat, dir).levels
  }

  /** With a positive `maxdepth`, no directory `WalkTree` lists lies more
      than `maxdepth` plain names below root. */
  lemma {:induction false} ListedWithinDepth(root: string, tree: Entry, excludeDirs: seq<string>, maxdepth: int,
                                             stat: string -> StatResult, dir: string -> string, names: seq<string>)
    requires maxdepth > 0 && !HasSuffix(root, "/")
    requires |names| >= 1 && PlainNames(names)
    requires stat(Below(root, names)) == Stat(true)
    requires Below(root, names) in Listed(root, tree, excludeDirs, maxdepth, DepthIn(root, stat, dir)).dirs
    ensures |names| <= maxdepth
  {
    ListedDirsWithinDepth(root, tree, excludeDirs, maxdepth, DepthIn(root, stat, dir), Below(root, names));
    SubdirectoryDepth(root, names, stat, dir);
  }
}
