/** The `DirDepth` of fileutils.go (fileutils.go:132-166), which makes both
    arguments absolute before comparing them, and the `currDepth` closure
    its `WalkTree` builds from it (fileutils.go:18-21). */
module FileUtils {

  import opened Errors
  import opened GoStrings
  import opened Paths
  import ShellFs
  import opened FsWalk

  /** `removeTrailingSlash`: drops one trailing `/`, then applies
      `filepath.Abs`, whose error is ignored. */
  function Normalise(s: string, abs: string -> string): (r: string)
    ensures !HasSuffix(s, "/") ==> r == abs(s)
    ensures HasSuffix(s, "/") ==> r == abs(s[..|s| - 1])
    ensures (forall x :: abs(x) == x) ==> r == StripSlash(s)
  {
    abs(StripSlash(s))
  }

  /** `DirDepth(root, path)`, with `os.Stat`, `filepath.Dir` and
      `filepath.Abs` as parameters. After normalisation: equal paths are at
      depth 0; a path that does not start with root (a textual test) is an
      error decided before `os.Stat`; a `Stat` failure is returned as it is;
      otherwise the depth is at least 1. */
  function DirDepth(root: string, path: string, stat: string -> StatResult, dir: string -> string,
                    abs: string -> string): (d: Depth)
    ensures d.levels >= 0 && (d.err.Some? ==> d.levels == 0)
    ensures var r, p := Normalise(root, abs), Normalise(path, abs);
      && (r == p ==> d == Depth(0, None))
      && (r != p && !HasPrefix(p, r) ==> d == Depth(0, Some(Failure(r + " not a prefix of " + p))))
      && (r != p && HasPrefix(p, r) && stat(p).StatFailed? ==> d == Depth(0, Some(stat(p).err)))
      && (r != p && HasPrefix(p, r) && stat(p).Stat? ==> d.err == None && d.levels >= 1)
  {
    DepthBelow(Normalise(root, abs), Normalise(path, abs), stat, dir)
  }

  /** For arguments that are already absolute and clean, where `Abs`
      changes nothing, the two files' `DirDepth`s agree. */
  lemma AbsoluteArgumentsAgree(root: string, path: string, stat: string -> StatResult, dir: string -> string,
                               abs: string -> string)
    requires abs(StripSlash(root)) == StripSlash(root) && abs(StripSlash(path)) == StripSlash(path)
    ensures DirDepth(root, path, stat, dir, abs) == ShellFs.DirDepth(root, path, stat, dir)
  {
  }

  /** A file whose parent directory is root is at depth 1: its parent
      equals root, and what is left is one empty piece. */
  lemma {:induction false} FileInRootDepthOne(root: string, path: string, stat: string -> StatResult, dir: string -> string,
                                              abs: string -> string)
    requires var r, p := Normalise(root, abs), Normalise(path, abs);
      r != p && HasPrefix(p, r) && stat(p) == Stat(false) && dir(p) == r
    ensures DirDepth(root, path, stat, dir, abs) == Depth(1, None)
  {
    FileInRootDepth(Normalise(root, abs), Normalise(path, abs), stat, dir);
  }

  /** A file is at the depth of its parent directory: when `filepath.Dir`
      of the normalised file path is `k` plain names below the absolute
      root, the file is at depth `k`. */
  lemma FileAtParentDepth(root: string, path: string, names: seq<string>,
                          stat: string -> StatResult, dir: string -> string, abs: string -> string)
    requires |names| >= 1 && PlainNames(names)
    requires var r, p := Normalise(root, abs), Normalise(path, abs);
      r != p && HasPrefix(p, r) && stat(p) == Stat(false) && dir(p) == Below(r, names)
    ensures DirDepth(root, path, stat, dir, abs) == Depth(|names|, None)
  {
    FileInDirectoryDepth(Normalise(root, abs), Normalise(path, abs), names, stat, dir);
  }

  /** A directory reached from the absolute root through `k` plain names
      is at depth `k`. */
  lemma {:induction false} SubdirectoryDepth(root: string, path: string, names: seq<string>,
                                             stat: string -> StatResult, dir: string -> string, abs: string -> string)
    requires |names| >= 1 && PlainNames(names)
    requires Normalise(path, abs) == Below(Normalise(root, abs), names)
    requires stat(Normalise(path, abs)) == Stat(true)
    ensures DirDepth(root, path, stat, dir, abs) == Depth(|names|, None)
  {
    DirectoryDepth(Normalise(root, abs), names, stat, dir);
  }

  /** `currDepth(path)`: the depth `DirDepth` gives when it succeeds, and
      0 when it fails, its error dropped. It is never negative, and a path
      that normalises to root is at depth 0. */
  function CurrDepth(root: string, stat: string -> StatResult, dir: string -> string, abs: string -> string,
                     path: string): (n: int)
    ensures n >= 0
    ensures Normalise(path, abs) == Normalise(root, abs) ==> n == 0
    ensures DirDepth(root, path, stat, dir, abs).err.Some? ==> n == 0
    ensures DirDepth(root, path, stat, dir, abs).err.None? ==> n == DirDepth(root, path, stat, dir, abs).levels
  {
    var d := DirDepth(root, path, stat, dir, abs);
    assert d.levels >= 0 && (d.err.Some? ==> d.levels == 0);
    assert Normalise(path, abs) == Normalise(root, abs) ==> d.levels == 0;
    d.levels
  }

  /** `WalkTree`'s `currDepth` closure, with the promises of `CurrDepth`
      for every path. */
  function DepthIn(root: string, stat: string -> StatResult, dir: string -> string, abs: string -> string): (depthOf: string -> int)
    ensures forall p :: depthOf(p) >= 0
    ensures forall p :: Normalise(p, abs) == Normalise(root, abs) ==> depthOf(p) == 0
    ensures forall p :: DirDepth(root, p, stat, dir, abs).err.Some? ==> depthOf(p) == 0
    ensures forall p :: DirDepth(root, p, stat, dir, abs).err.None? ==> depthOf(p) == DirDepth(root, p, stat, dir, abs).levels
  {
    p => CurrDepth(root, stat, dir, abs, p)
  }

  /** With a positive `maxdepth`, no directory `WalkTree` lists lies more
      than `maxdepth` plain names below the absolute root. */
  lemma {:induction false} ListedWithinDepth(root: string, tree: Entry, excludeDirs: seq<string>, maxdepth: int,
                                             stat: string -> StatResult, dir: string -> string, abs: string -> string,
                                             d: string, names: seq<string>)
    requires maxdepth > 0
    requires |names| >= 1 && PlainNames(names)
    requires Normalise(d, abs) == Below(Normalise(root, abs), names)
    requires stat(Normalise(d, abs)) == Stat(true)
    requires d in Listed(root, tree, excludeDirs, maxdepth, DepthIn(root, stat, dir, abs)).dirs
    ensures |names| <= maxdepth
  {
    ListedDirsWithinDepth(root, tree, excludeDirs, maxdepth, DepthIn(root, stat, dir, abs), d);
    SubdirectoryDepth(root, d, names, stat, dir, abs);
  }
}
