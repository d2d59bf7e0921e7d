/** Slash-separated path handling shared by the two `DirDepth`s and the
    tree walk: `filepath.Base`, `filepath.Join` of a directory and an entry
    name, and the depth computation that both `DirDepth`s end with. */
module Paths {

  import opened Errors
  import opened GoStrings

  /** What `os.Stat` reports about a path: whether it is a directory, or
      the error it failed with. */
  datatype StatResult = Stat(isDir: bool) | StatFailed(err: Error)

  /** The two results of `DirDepth`: a depth and an error. */
  datatype Depth = Depth(levels: int, err: Option<Error>)

  /** Removes one trailing `/`, as both `DirDepth`s do before comparing. */
  function StripSlash(s: string): (r: string)
    ensures r == s || r + "/" == s
    ensures HasSuffix(s, "/") <==> r != s
  {
    if HasSuffix(s, "/") then s[..|s| - 1] else s
  }

  /** Removes every trailing `c` (the loop at the top of `filepath.Base`). */
  function DropTrailing(s: string, c: char): (r: string)
    ensures |r| <= |s| && r == s[..|r|]
    ensures r == [] || r[|r| - 1] != c
    ensures forall k :: |r| <= k < |s| ==> s[k] == c
  {
    if s != [] && s[|s| - 1] == c then DropTrailing(s[..|s| - 1], c) else s
  }

  /** `filepath.Base` on Unix: "." for the empty path, "/" for a path made
      only of slashes, and otherwise the last element: once the trailing
      slashes are dropped, the non-empty tail that follows the last
      remaining slash (or the whole of it, when none is left). */
  function Base(path: string): (b: string)
    ensures path == [] ==> b == "."
    ensures path != [] && (forall k :: 0 <= k < |path| ==> path[k] == '/') ==> b == "/"
    ensures DropTrailing(path, '/') != [] ==> IsLastElement(DropTrailing(path, '/'), b)
  {
    if path == [] then "."
    else
      var trimmed := DropTrailing(path, '/');
      if trimmed == [] then "/"
      else
        assert path[|trimmed| - 1] != '/';
        LastOf(trimmed)
  }

  /** `b` is the last element of `t`: a non-empty tail of `t` without a
      slash that is either all of `t` or follows a slash. */
  predicate IsLastElement(t: string, b: string) {
    b != [] && '/' !in b && HasSuffix(t, b) && (|b| == |t| || t[|t| - |b| - 1] == '/')
  }

  /** The last piece between slashes of a path that does not end with a
      slash: its last element. */
  function LastOf(t: string): (b: string)
    requires t != [] && t[|t| - 1] != '/'
    ensures IsLastElement(t, b)
  {
    var pieces := Split(t, '/');
    SplitLast(t, '/');
    pieces[|pieces| - 1]
  }

  /** The last piece of a split is the whole string when there is only one
      piece, and otherwise the tail after the last separator. */
  lemma {:induction false} SplitLast(s: string, sep: char)
    ensures var parts := Split(s, sep); var last := parts[|parts| - 1];
      && HasSuffix(s, last)
      && (|parts| == 1 ==> last == s)
      && (|parts| > 1 ==> |last| < |s| && s[|s| - |last| - 1] == sep)
  {
    if s != [] {
      var rest := Split(s[1..], sep);
      SplitLast(s[1..], sep);
      var last := rest[|rest| - 1];
      if s[0] == sep {
        assert Split(s, sep) == [""] + rest;
        assert s[|s| - |last|..] == s[1..][|s| - 1 - |last|..];
      } else if |rest| == 1 {
        assert Split(s, sep) == [[s[0]] + rest[0]];
        assert [s[0]] + s[1..] == s;
      } else {
        assert Split(s, sep) == [[s[0]] + rest[0]] + rest[1..];
        assert s[|s| - |last|..] == s[1..][|s| - 1 - |last|..];
        assert s[|s| - |last| - 1] == s[1..][|s| - 1 - |last| - 1];
      }
    }
  }

  /** `filepath.Join(dir, name)` for the paths `filepath.Walk` builds: the
      directory path it was given and a plain entry name. `Join` cleans its
      result, so an empty directory and the current directory "." both
      give the name alone, and the root "/" gives "/" and the name. For
      any other clean directory path (one with no trailing slash, no empty,
      "." or ".." element after the first) this is exactly what `Join`
      returns. */
  function JoinPath(dir: string, name: string): (p: string)
    ensures dir == [] || dir == "." ==> p == name
    ensures dir == "/" ==> p == "/" + name
    ensures dir != [] && dir != "." && dir[|dir| - 1] != '/' ==> p == dir + "/" + name
  {
    if dir == [] || dir == "." then name
    else if dir[|dir| - 1] == '/' then dir + name
    else dir + "/" + name
  }

  /** The last piece of a string that ends in `sep` followed by a
      separator-free piece is that piece. */
  lemma {:induction false} SplitEndsWith(t: string, p: string, sep: char)
    requires sep !in p
    ensures var parts := Split(t + [sep] + p, sep);
      |parts| >= 2 && parts[|parts| - 1] == p
  {
    if t == [] {
      assert t + [sep] + p == [sep] + p;
      assert ([sep] + p)[1..] == p;
      SplitNoSep(p, sep);
    } else {
      assert (t + [sep] + p)[1..] == t[1..] + [sep] + p;
      SplitEndsWith(t[1..], p, sep);
    }
  }

  /** The base name of a joined path is the entry name. */
  lemma BaseOfJoin(dir: string, name: string)
    requires name != [] && '/' !in name
    ensures Base(JoinPath(dir, name)) == name
  {
    var p := JoinPath(dir, name);
    assert DropTrailing(p, '/') == p;
    if dir == [] || dir == "." {
      SplitNoSep(name, '/');
    } else if dir[|dir| - 1] == '/' {
      assert p == dir[..|dir| - 1] + ['/'] + name;
      SplitEndsWith(dir[..|dir| - 1], name, '/');
    } else {
      assert p == dir + ['/'] + name;
      SplitEndsWith(dir, name, '/');
    }
  }

  /** The part of `DirDepth` that follows the normalisation of its two
      arguments: equal paths are at depth 0; a path that does not start
      with root (a textual test) is an error found before `os.Stat` is
      consulted; a `Stat` failure is returned as it is; otherwise the depth
      is the number of `/`-separated pieces of what is left of the path (or
      of its parent directory, `dir`, when it is not a directory) once root
      is removed, which is never less than 1. */
  function DepthBelow(root: string, path: string, stat: string -> StatResult, dir: string -> string): (d: Depth)
    ensures root == path ==> d == Depth(0, None)
    ensures root != path && !HasPrefix(path, root) ==>
      d == Depth(0, Some(Failure(root + " not a prefix of " + path)))
    ensures root != path && HasPrefix(path, root) && stat(path).StatFailed? ==>
      d == Depth(0, Some(stat(path).err))
    ensures root != path && HasPrefix(path, root) && stat(path).Stat? ==>
      d.err == None && d.levels >= 1
  {
    if root == path then Depth(0, None)
    else if !HasPrefix(path, root) then Depth(0, Some(Failure(root + " not a prefix of " + path)))
    else
      match stat(path)
      case StatFailed(err) => Depth(0, Some(err))
      case Stat(isDir) =>
        var p := if isDir then path else dir(path);
        var rest := TrimChar(ReplaceFirst(p, root, ""), '/');
        Depth(|Split(rest, '/')|, None)
  }

  /** Every name is a plain, non-empty path element. */
  predicate PlainNames(names: seq<string>) {
    forall i :: 0 <= i < |names| ==> names[i] != [] && '/' !in names[i]
  }

  /** The path `levels` directories below `root`. */
  function Below(root: string, names: seq<string>): string {
    root + "/" + Join(names, "/")
  }

  /** The join of plain names neither starts nor ends with a slash. */
  lemma {:induction false} JoinPlainEnds(names: seq<string>)
    requires |names| >= 1 && PlainNames(names)
    ensures var j := Join(names, "/"); j != [] && j[0] != '/' && j[|j| - 1] != '/'
  {
    if |names| > 1 {
      JoinPlainEnds(names[1..]);
      var rest := Join(names[1..], "/");
      assert Join(names, "/") == names[0] + "/" + rest;
    }
  }

  /** A directory `k` plain names below root is at depth `k`. */
  lemma DirectoryDepth(root: string, names: seq<string>, stat: string -> StatResult, dir: string -> string)
    requires |names| >= 1 && PlainNames(names)
    requires stat(Below(root, names)) == Stat(true)
    ensures DepthBelow(root, Below(root, names), stat, dir) == Depth(|names|, None)
  {
    var path := Below(root, names);
    var j := Join(names, "/");
    JoinPlainEnds(names);
    assert HasPrefix(path, root) by { assert path[..|root|] == root; }
    assert path[|root|..] == "/" + j;
    assert ReplaceFirst(path, root, "") == "/" + j;
    assert ("/" + j)[0] == '/' && ("/" + j)[1..] == j;
    assert TrimChar("/" + j, '/') == TrimChar(j, '/');
    assert TrimChar(j, '/') == j;
    assert "/" == ['/'];
    SplitJoin(names, '/');
  }

  /** A file is at the depth of its parent directory: when `dir` gives a
      directory `k` plain names below root, the file is at depth `k`. */
  lemma FileInDirectoryDepth(root: string, path: string, names: seq<string>,
                             stat: string -> StatResult, dir: string -> string)
    requires |names| >= 1 && PlainNames(names)
    requires root != path && HasPrefix(path, root)
    requires stat(path) == Stat(false) && dir(path) == Below(root, names)
    ensures DepthBelow(root, path, stat, dir) == Depth(|names|, None)
  {
    DirectoryDepth(root, names, p => Stat(true), dir);
  }

  /** A file whose parent directory is root is at depth 1. */
  lemma FileInRootDepth(root: string, path: string, stat: string -> StatResult, dir: string -> string)
    requires root != path && HasPrefix(path, root)
    requires stat(path) == Stat(false) && dir(path) == root
    ensures DepthBelow(root, path, stat, dir) == Depth(1, None)
  {
    assert ReplaceFirst(root, root, "") == "" by { assert HasPrefix(root, root); }
  }
}
