/** The directory walk behind `WalkTree`, `FindDirs`, `FindFiles`,
    `RemoveFiles` and `DirTreeSize` (fileutils.go:14-126, and the same code
    at shell.go:302-454).

    `filepath.Walk` is modelled over an in-memory tree: it calls the
    callback for an entry, then, for a directory the callback does not
    skip, for its children in name order, and it stops at the first entry
    whose `Lstat` or `ReadDir` fails, because every callback here returns
    that error. All three callbacks decide to skip a directory from its
    path and its entry alone, so the calls `filepath.Walk` makes are a
    function of the tree and of that decision (`Walk`); the callback bodies
    are then run on those calls in order. */
module FsWalk {

  import opened Errors
  import opened GoStrings
  import opened Paths

  /** An entry of the tree as `filepath.Walk` sees it. A directory lists
      its children in name order, as `ReadDir` returns them. `Faulty` is an
      entry whose `Lstat`, or whose directory listing, fails. */
  datatype Entry =
    | File(name: string, size: nat)
    | Dir(name: string, children: seq<Entry>)
    | Faulty(name: string, err: Error)

  /** One call of the callback: the path and what was found there. */
  datatype Visit = Visit(path: string, entry: Entry)

  /** The calls `filepath.Walk` made, and the error it returned. */
  datatype Trace = Trace(visits: seq<Visit>, err: Option<Error>)

  /** No call but possibly the last reports an error, and the walk returns
      an error exactly when the last call reported one: that error. */
  predicate StopsAtFault(t: Trace) {
    && (forall k :: 0 <= k < |t.visits| - 1 ==> !t.visits[k].entry.Faulty?)
    && (t.err.Some? <==> t.visits != [] && t.visits[|t.visits| - 1].entry.Faulty?)
    && (t.err.Some? ==> t.err.value == t.visits[|t.visits| - 1].entry.err)
  }

  /** `filepath.Walk(path, fn)` on the entry `e`, where `fn` returns
      `SkipDir` for the directories `skip` names. */
  function Walk(path: string, e: Entry, skip: (string, Entry) -> bool): (t: Trace)
    ensures |t.visits| >= 1 && t.visits[0] == Visit(path, e)
    ensures StopsAtFault(t)
    decreases e, 1, 0
  {
    match e
    case File(_, _) => Trace([Visit(path, e)], None)
    case Faulty(_, err) => Trace([Visit(path, e)], Some(err))
    case Dir(_, _) =>
      if skip(path, e) then Trace([Visit(path, e)], None)
      else
        var rest := WalkChildren(path, e, 0, skip);
        AppendStops(Trace([Visit(path, e)], None), rest);
        Trace([Visit(path, e)] + rest.visits, rest.err)
  }

  /** The walk of the children of `dir` from the `i`-th on. */
  function WalkChildren(path: string, dir: Entry, i: nat, skip: (string, Entry) -> bool): (t: Trace)
    requires dir.Dir? && i <= |dir.children|
    ensures StopsAtFault(t)
    decreases dir, 0, |dir.children| - i
  {
    if i == |dir.children| then Trace([], None)
    else
      var child := dir.children[i];
      var first := Walk(JoinPath(path, child.name), child, skip);
      if first.err.Some? then first
      else
        var rest := WalkChildren(path, dir, i + 1, skip);
        AppendStops(first, rest);
        Trace(first.visits + rest.visits, rest.err)
  }

  /** A walk that found no error, followed by another walk, stops where
      the second one does. */
  lemma AppendStops(a: Trace, b: Trace)
    requires StopsAtFault(a) && a.err == None && StopsAtFault(b)
    ensures StopsAtFault(Trace(a.visits + b.visits, b.err))
  {
    var vs := a.visits + b.visits;
    forall k | 0 <= k < |vs| - 1
      ensures !vs[k].entry.Faulty?
    {
      if k >= |a.visits| {
        assert vs[k] == b.visits[k - |a.visits|];
      }
    }
    if b.visits != [] {
      assert vs[|vs| - 1] == b.visits[|b.visits| - 1];
    }
  }

  /** `c` is a child of the directory visited by `p`, reached through it,
      and the callback did not skip `p`. */
  predicate KeptParent(p: Visit, c: Visit, skip: (string, Entry) -> bool) {
    && p.entry.Dir?
    && !skip(p.path, p.entry)
    && c.entry in p.entry.children
    && c.path == JoinPath(p.path, c.entry.name)
  }

  /** Every call after the first is for a child of a directory called
      earlier and not skipped: nothing below a skipped directory is ever
      visited, and no entry is called before its parent. */
  lemma {:induction false} WalkOnlyBelowKeptDirs(path: string, e: Entry, skip: (string, Entry) -> bool, k: nat)
    requires 0 < k < |Walk(path, e, skip).visits|
    ensures var vs := Walk(path, e, skip).visits;
      exists j :: 0 <= j < k && KeptParent(vs[j], vs[k], skip)
  {
    var j := ParentCall(path, e, skip, k);
  }

  /** The index of the call for the parent of call `k`. */
  lemma {:induction false} ParentCall(path: string, e: Entry, skip: (string, Entry) -> bool, k: nat) returns (j: nat)
    requires 0 < k < |Walk(path, e, skip).visits|
    ensures var vs := Walk(path, e, skip).visits; j < k && KeptParent(vs[j], vs[k], skip)
    decreases e, 1, 0, 0
  {
    WalkShape(path, e, skip, k);
    j := ChildParentCall(path, e, 0, skip, k - 1);
  }

  /** A walk with more than one call is that of an unskipped directory. */
  lemma WalkShape(path: string, e: Entry, skip: (string, Entry) -> bool, k: nat)
    requires 0 < k < |Walk(path, e, skip).visits|
    ensures e.Dir? && !skip(path, e)
    ensures Walk(path, e, skip).visits == [Visit(path, e)] + WalkChildren(path, e, 0, skip).visits
  {
  }

  /** The same for the walk of the children of an unskipped directory,
      after the directory's own call: the index of the call for the parent
      of call `k` of the children's walk, counting the directory's call as
      index 0. */
  lemma {:induction false} ChildParentCall(path: string, dir: Entry, i: nat, skip: (string, Entry) -> bool, k: nat)
    returns (j: nat)
    requires dir.Dir? && i <= |dir.children| && !skip(path, dir)
    requires k < |WalkChildren(path, dir, i, skip).visits|
    ensures var vs := [Visit(path, dir)] + WalkChildren(path, dir, i, skip).visits;
      j <= k && KeptParent(vs[j], vs[k + 1], skip)
    decreases dir, 0, |dir.children| - i, 1
  {
    var child := dir.children[i];
    if k < |Walk(JoinPath(path, child.name), child, skip).visits| {
      j := InFirstChild(path, dir, i, skip, k);
    } else {
      j := InLaterChildren(path, dir, i, skip, k);
    }
  }

  /** A call made while walking child `i` is for that child, or for an
      entry below a directory called earlier. */
  lemma {:induction false} InFirstChild(path: string, dir: Entry, i: nat, skip: (string, Entry) -> bool, k: nat)
    returns (j: nat)
    requires dir.Dir? && i < |dir.children| && !skip(path, dir)
    requires k < |Walk(JoinPath(path, dir.children[i].name), dir.children[i], skip).visits|
    ensures k < |WalkChildren(path, dir, i, skip).visits|
    ensures var vs := [Visit(path, dir)] + WalkChildren(path, dir, i, skip).visits;
      j <= k && KeptParent(vs[j], vs[k + 1], skip)
    decreases dir, 0, |dir.children| - i, 0
  {
    var child := dir.children[i];
    var cpath := JoinPath(path, child.name);
    var first := Walk(cpath, child, skip).visits;
    var vs := [Visit(path, dir)] + WalkChildren(path, dir, i, skip).visits;
    FirstShape(path, dir, i, skip);
    assert vs[k + 1] == first[k];
    if k == 0 {
      j := 0;
    } else {
      var jj := ParentCall(cpath, child, skip, k);
      j := jj + 1;
      assert vs[j] == first[jj];
    }
  }

  /** A call made after the walk of child `i` is for a later child, or for
      an entry below a directory called earlier. */
  lemma {:induction false} InLaterChildren(path: string, dir: Entry, i: nat, skip: (string, Entry) -> bool, k: nat)
    returns (j: nat)
    requires dir.Dir? && i < |dir.children| && !skip(path, dir)
    requires |Walk(JoinPath(path, dir.children[i].name), dir.children[i], skip).visits| <= k
    requires k < |WalkChildren(path, dir, i, skip).visits|
    ensures var vs := [Visit(path, dir)] + WalkChildren(path, dir, i, skip).visits;
      j <= k && KeptParent(vs[j], vs[k + 1], skip)
    decreases dir, 0, |dir.children| - i, 0
  {
    var child := dir.children[i];
    var first := Walk(JoinPath(path, child.name), child, skip).visits;
    var rest := WalkChildren(path, dir, i + 1, skip).visits;
    var vs := [Visit(path, dir)] + WalkChildren(path, dir, i, skip).visits;
    LaterShape(path, dir, i, skip, k);
    var m := k - |first|;
    var jj := ChildParentCall(path, dir, i + 1, skip, m);
    var ws := [Visit(path, dir)] + rest;
    assert vs[k + 1] == ws[m + 1];
    j := if jj == 0 then 0 else jj + |first|;
    assert vs[j] == ws[jj];
  }

  /** The walk of the children starts with the walk of child `i`. */
  lemma FirstShape(path: string, dir: Entry, i: nat, skip: (string, Entry) -> bool)
    requires dir.Dir? && i < |dir.children|
    ensures var first := Walk(JoinPath(path, dir.children[i].name), dir.children[i], skip).visits;
      var vs := WalkChildren(path, dir, i, skip).visits;
      |first| <= |vs| && vs[..|first|] == first
  {
  }

  /** A walk of the children that goes on past child `i` found no error
      there. */
  lemma LaterShape(path: string, dir: Entry, i: nat, skip: (string, Entry) -> bool, k: nat)
    requires dir.Dir? && i < |dir.children|
    requires |Walk(JoinPath(path, dir.children[i].name), dir.children[i], skip).visits| <= k
    requires k < |WalkChildren(path, dir, i, skip).visits|
    ensures WalkChildren(path, dir, i, skip).visits ==
      Walk(JoinPath(path, dir.children[i].name), dir.children[i], skip).visits
      + WalkChildren(path, dir, i + 1, skip).visits
  {
  }

  /** The walk of child `i` of `dir`. */
  function ChildWalk(path: string, dir: Entry, i: nat, skip: (string, Entry) -> bool): Trace
    requires dir.Dir? && i < |dir.children|
  {
    Walk(JoinPath(path, dir.children[i].name), dir.children[i], skip)
  }

  /** The walks of the children from child `i` on, each child's own walk
      in full, one after the other in `children` order. When the walk of
      those children ends without error, this is exactly the calls it
      made. */
  function ChildrenVisits(path: string, dir: Entry, i: nat, skip: (string, Entry) -> bool): (vs: seq<Visit>)
    requires dir.Dir? && i <= |dir.children|
    ensures WalkChildren(path, dir, i, skip).err == None ==> vs == WalkChildren(path, dir, i, skip).visits
    decreases |dir.children| - i
  {
    if i == |dir.children| then [] else ChildWalk(path, dir, i, skip).visits + ChildrenVisits(path, dir, i + 1, skip)
  }

  /** A walk that ends without error is a pre-order walk: the walk of an
      unskipped directory is the directory's own call, then the walk of
      each child, child after child in `children` order, each as one
      unbroken run that starts with the call for that child. Each run
      being that child's own walk, the same holds at every level of the
      tree, so every entry below an unskipped directory is called, after
      it. */
  lemma {:induction false} WalkIsPreOrder(path: string, e: Entry, skip: (string, Entry) -> bool)
    requires e.Dir? && !skip(path, e) && Walk(path, e, skip).err == None
    ensures Walk(path, e, skip).visits == [Visit(path, e)] + ChildrenVisits(path, e, 0, skip)
  {
    assert Walk(path, e, skip).visits == [Visit(path, e)] + WalkChildren(path, e, 0, skip).visits;
  }

  /** The entry holds no faulty entry. */
  predicate Sound(e: Entry)
    decreases e
  {
    match e
    case File(_, _) => true
    case Faulty(_, _) => false
    case Dir(_, cs) => forall i :: 0 <= i < |cs| ==> Sound(cs[i])
  }

  /** The bytes of all the files in a tree. */
  function TreeBytes(e: Entry): nat
    decreases e, 1
  {
    match e
    case File(_, size) => size
    case Faulty(_, _) => 0
    case Dir(_, _) => ChildrenBytes(e, 0)
  }

  function ChildrenBytes(dir: Entry, i: nat): nat
    requires dir.Dir? && i <= |dir.children|
    decreases dir, 0, |dir.children| - i
  {
    if i == |dir.children| then 0
    else TreeBytes(dir.children[i]) + ChildrenBytes(dir, i + 1)
  }

  /** The sum of the sizes of the files among the calls, the amount
      `DirTreeSize`'s callback adds up. */
  function FileBytes(vs: seq<Visit>): nat {
    if vs == [] then 0
    else
      var v := vs[|vs| - 1];
      FileBytes(vs[..|vs| - 1]) + (if v.entry.File? then v.entry.size else 0)
  }

  lemma {:induction false} FileBytesConcat(a: seq<Visit>, b: seq<Visit>)
    ensures FileBytes(a + b) == FileBytes(a) + FileBytes(b)
  {
    if b != [] {
      FileBytesConcat(a, b[..|b| - 1]);
      assert (a + b)[..|a + b| - 1] == a + b[..|b| - 1];
      assert (a + b)[|a + b| - 1] == b[|b| - 1];
    } else {
      assert a + b == a;
    }
  }

  /** A walk that skips nothing over a tree with no faulty entry reports
      no error and adds up the size of every file in the tree. */
  lemma {:induction false} FullWalkBytes(path: string, e: Entry, skip: (string, Entry) -> bool)
    requires Sound(e)
    requires forall p, x :: !skip(p, x)
    ensures Walk(path, e, skip).err == None
    ensures FileBytes(Walk(path, e, skip).visits) == TreeBytes(e)
    decreases e, 1, 0
  {
    if e.Dir? {
      FullChildrenBytes(path, e, 0, skip);
      var rest := WalkChildren(path, e, 0, skip);
      FileBytesConcat([Visit(path, e)], rest.visits);
    }
  }

  lemma {:induction false} FullChildrenBytes(path: string, dir: Entry, i: nat, skip: (string, Entry) -> bool)
    requires dir.Dir? && i <= |dir.children| && Sound(dir)
    requires forall p, x :: !skip(p, x)
    ensures WalkChildren(path, dir, i, skip).err == None
    ensures FileBytes(WalkChildren(path, dir, i, skip).visits) == ChildrenBytes(dir, i)
    decreases dir, 0, |dir.children| - i
  {
    if i < |dir.children| {
      var child := dir.children[i];
      FullWalkBytes(JoinPath(path, child.name), child, skip);
      FullChildrenBytes(path, dir, i + 1, skip);
      var first := Walk(JoinPath(path, child.name), child, skip);
      var rest := WalkChildren(path, dir, i + 1, skip);
      FileBytesConcat(first.visits, rest.visits);
    }
  }

  /** `WalkTree`'s skip decision (fileutils.go:33-41): too deep when a
      positive `maxdepth` is exceeded, or named in `excludeDirs`. Files are
      never skipped, and a `maxdepth` of 0 or less sets no depth limit. */
  function Prune(path: string, e: Entry, depthOf: string -> int, maxdepth: int, excludeDirs: seq<string>): (b: bool)
    ensures b ==> e.Dir? && (e.name in excludeDirs || (maxdepth > 0 && depthOf(path) > maxdepth))
    ensures e.Dir? && e.name in excludeDirs ==> b
    ensures e.Dir? && maxdepth > 0 && depthOf(path) > maxdepth ==> b
    ensures maxdepth <= 0 ==> (b <==> e.Dir? && e.name in excludeDirs)
  {
    e.Dir? && ((maxdepth > 0 && depthOf(path) > maxdepth) || e.name in excludeDirs)
  }

  function Pruning(depthOf: string -> int, maxdepth: int, excludeDirs: seq<string>): (string, Entry) -> bool {
    (p, e) => Prune(p, e, depthOf, maxdepth, excludeDirs)
  }

  /** `DirTreeSize`'s skip decision (fileutils.go:111-116): named in
      `excludeDirs`. It is `WalkTree`'s without a depth limit. */
  function Excluding(excludeDirs: seq<string>): (skip: (string, Entry) -> bool)
    ensures forall p: string, e: Entry :: skip(p, e) <==> Prune(p, e, q => 0, 0, excludeDirs)
  {
    (p, e: Entry) => e.Dir? && e.name in excludeDirs
  }

  /** The directories `WalkTree`'s callback appends, in call order. */
  function ListedDirs(vs: seq<Visit>, depthOf: string -> int, maxdepth: int, excludeDirs: seq<string>): (dirs: seq<string>)
    ensures |dirs| <= |vs|
    ensures forall k :: 0 <= k < |dirs| ==> maxdepth <= 0 || depthOf(dirs[k]) <= maxdepth
  {
    if vs == [] then []
    else
      var v := vs[|vs| - 1];
      ListedDirs(vs[..|vs| - 1], depthOf, maxdepth, excludeDirs)
        + (if v.entry.Dir? && !Prune(v.path, v.entry, depthOf, maxdepth, excludeDirs) then [v.path] else [])
  }

  /** The files `WalkTree`'s callback appends, in call order. */
  function ListedFiles(vs: seq<Visit>): (files: seq<string>)
    ensures |files| <= |vs|
  {
    if vs == [] then []
    else
      var v := vs[|vs| - 1];
      ListedFiles(vs[..|vs| - 1]) + (if v.entry.File? then [v.path] else [])
  }

  /** A path is listed as a file exactly when the walk called the
      callback for a file there. */
  lemma {:induction false} ListedFilesExactly(vs: seq<Visit>, x: string)
    ensures x in ListedFiles(vs) <==>
      exists k :: 0 <= k < |vs| && vs[k].entry.File? && vs[k].path == x
  {
    if vs != [] {
      var init := vs[..|vs| - 1];
      ListedFilesExactly(init, x);
      assert forall k :: 0 <= k < |init| ==> vs[k] == init[k];
    }
  }

  /** A path is listed as a directory exactly when the walk called the
      callback for a directory there that was neither too deep nor
      excluded by name. */
  lemma {:induction false} ListedDirsExactly(vs: seq<Visit>, depthOf: string -> int, maxdepth: int, excludeDirs: seq<string>, x: string)
    ensures x in ListedDirs(vs, depthOf, maxdepth, excludeDirs) <==>
      exists k :: 0 <= k < |vs| && vs[k].path == x && vs[k].entry.Dir?
        && !(maxdepth > 0 && depthOf(x) > maxdepth) && vs[k].entry.name !in excludeDirs
  {
    if vs != [] {
      var init := vs[..|vs| - 1];
      ListedDirsExactly(init, depthOf, maxdepth, excludeDirs, x);
      assert forall k :: 0 <= k < |init| ==> vs[k] == init[k];
    }
  }

  /** The results of `WalkTree`. */
  datatype Listing = Listing(dirs: seq<string>, files: seq<string>, err: Option<Error>)

  /** What `WalkTree` returns for `root`, with `depthOf` the depth its
      `currDepth` computes. */
  function Listed(root: string, tree: Entry, excludeDirs: seq<string>, maxdepth: int, depthOf: string -> int): Listing {
    var t := Walk(root, tree, Pruning(depthOf, maxdepth, excludeDirs));
    Listing(ListedDirs(t.visits, depthOf, maxdepth, excludeDirs), ListedFiles(t.visits), t.err)
  }

  /** With a positive `maxdepth`, every directory `WalkTree` lists is at
      most `maxdepth` deep by its own depth measure. */
  lemma ListedDirsWithinDepth(root: string, tree: Entry, excludeDirs: seq<string>, maxdepth: int,
                              depthOf: string -> int, d: string)
    requires maxdepth > 0
    requires d in Listed(root, tree, excludeDirs, maxdepth, depthOf).dirs
    ensures depthOf(d) <= maxdepth
  {
    var dirs := Listed(root, tree, excludeDirs, maxdepth, depthOf).dirs;
    var k :| 0 <= k < |dirs| && dirs[k] == d;
  }

  /** The paths whose base name matches the glob; `isMatch` is the result
      `filepath.Match` reports, false for a malformed pattern. */
  function Matching(paths: seq<string>, glob: string, isMatch: (string, string) -> bool): (r: seq<string>)
    ensures |r| <= |paths|
  {
    if paths == [] then []
    else
      var p := paths[|paths| - 1];
      Matching(paths[..|paths| - 1], glob, isMatch) + (if isMatch(glob, Base(p)) then [p] else [])
  }

  /** A path is kept exactly when it is one of the paths and its base name
      matches. */
  lemma {:induction false} MatchingExactly(paths: seq<string>, glob: string, isMatch: (string, string) -> bool, x: string)
    ensures x in Matching(paths, glob, isMatch) <==> x in paths && isMatch(glob, Base(x))
  {
    if paths != [] {
      var init := paths[..|paths| - 1];
      MatchingExactly(init, glob, isMatch, x);
      assert paths == init + [paths[|paths| - 1]];
    }
  }

  /** The selection keeps the order of the paths: it distributes over
      concatenation. */
  lemma {:induction false} MatchingConcat(a: seq<string>, b: seq<string>, glob: string, isMatch: (string, string) -> bool)
    ensures Matching(a + b, glob, isMatch) == Matching(a, glob, isMatch) + Matching(b, glob, isMatch)
  {
    if b != [] {
      MatchingConcat(a, b[..|b| - 1], glob, isMatch);
      assert (a + b)[..|a + b| - 1] == a + b[..|b| - 1];
      assert (a + b)[|a + b| - 1] == b[|b| - 1];
    } else {
      assert a + b == a;
    }
  }

  /** The `for _, e := range excludeDirs` loop of the callbacks. */
  method Excluded(name: string, excludeDirs: seq<string>) returns (found: bool)
    ensures found <==> name in excludeDirs
  {
    var i := 0;
    while i < |excludeDirs|
      invariant 0 <= i <= |excludeDirs|
      invariant name !in excludeDirs[..i]
    {
      if excludeDirs[i] == name {
        return true;
      }
      assert excludeDirs[..i + 1] == excludeDirs[..i] + [excludeDirs[i]];
      i := i + 1;
    }
    assert excludeDirs[..i] == excludeDirs;
    return false;
  }

  /** `WalkTree`'s callback (fileutils.go:25-47) run on each call of the
      walk: a call for an error appends nothing, a file is appended to
      `files`, a directory to `dirs` unless it is skipped. */
  method ListVisits(vs: seq<Visit>, depthOf: string -> int, maxdepth: int, excludeDirs: seq<string>)
    returns (dirs: seq<string>, files: seq<string>)
    ensures dirs == ListedDirs(vs, depthOf, maxdepth, excludeDirs)
    ensures files == ListedFiles(vs)
  {
    dirs, files := [], [];
    var i := 0;
    while i < |vs|
      invariant 0 <= i <= |vs|
      invariant dirs == ListedDirs(vs[..i], depthOf, maxdepth, excludeDirs)
      invariant files == ListedFiles(vs[..i])
    {
      var v := vs[i];
      assert vs[..i + 1][..i] == vs[..i];
      match v.entry {
        case Faulty(_, _) =>
        case File(_, _) =>
          files := files + [v.path];
        case Dir(name, _) =>
          if maxdepth > 0 && depthOf(v.path) > maxdepth {
          } else {
            var excluded := Excluded(name, excludeDirs);
            if !excluded {
              dirs := dirs + [v.path];
            }
          }
      }
      i := i + 1;
    }
    assert vs[..i] == vs;
  }

  /** `DirTreeSize`'s callback (fileutils.go:106-121) run on each call of
      the walk: the size of every file is added to a total that starts at 0. */
  method SumFileSizes(vs: seq<Visit>) returns (totSize: int)
    ensures totSize == FileBytes(vs)
  {
    totSize := 0;
    var i := 0;
    while i < |vs|
      invariant 0 <= i <= |vs|
      invariant totSize == FileBytes(vs[..i])
    {
      var v := vs[i];
      assert vs[..i + 1][..i] == vs[..i];
      if v.entry.File? {
        totSize := totSize + v.entry.size;
      }
      i := i + 1;
    }
    assert vs[..i] == vs;
  }

  /** The loop of `FindDirs` and `FindFiles` (fileutils.go:58-64, 73-79):
      the paths whose base name matches, in their order. */
  method SelectMatching(paths: seq<string>, glob: string, isMatch: (string, string) -> bool)
    returns (matches: seq<string>)
    ensures matches == Matching(paths, glob, isMatch)
  {
    matches := [];
    var i := 0;
    while i < |paths|
      invariant 0 <= i <= |paths|
      invariant matches == Matching(paths[..i], glob, isMatch)
    {
      assert paths[..i + 1][..i] == paths[..i];
      if isMatch(glob, Base(paths[i])) {
        matches := matches + [paths[i]];
      }
      i := i + 1;
    }
    assert paths[..i] == paths;
  }

  /** A root directory named in `excludeDirs` is not descended into:
      `DirTreeSize` totals 0 without error. */
  lemma ExcludedRootIsEmpty(root: string, tree: Entry, excludeDirs: seq<string>)
    requires tree.Dir? && tree.name in excludeDirs
    ensures FileBytes(Walk(root, tree, Excluding(excludeDirs)).visits) == 0
    ensures Walk(root, tree, Excluding(excludeDirs)).err == None
  {
    assert Walk(root, tree, Excluding(excludeDirs)).visits == [Visit(root, tree)];
  }

  /** `WalkTree`: the directories and files `filepath.Walk` reaches below
      `root`, pruned by depth and by name, and the walk's error. `depthOf`
      is its `currDepth` closure, which each file builds from its own
      `DirDepth`. */
  method WalkTree(root: string, tree: Entry, excludeDirs: seq<string>, maxdepth: int, depthOf: string -> int)
    returns (dirs: seq<string>, files: seq<string>, err: Option<Error>)
    ensures Listing(dirs, files, err) == Listed(root, tree, excludeDirs, maxdepth, depthOf)
  {
    var t := Walk(root, tree, Pruning(depthOf, maxdepth, excludeDirs));
    dirs, files := ListVisits(t.visits, depthOf, maxdepth, excludeDirs);
    err := t.err;
  }

  /** `FindDirs`: the directories `WalkTree` lists whose base name matches
      the glob, in walk order, with the walk's error. */
  method FindDirs(startDir: string, tree: Entry, dirNameGlob: string, maxDepth: int, ignore: seq<string>,
                  depthOf: string -> int, isMatch: (string, string) -> bool)
    returns (matches: seq<string>, err: Option<Error>)
    ensures var l := Listed(startDir, tree, ignore, maxDepth, depthOf);
      matches == Matching(l.dirs, dirNameGlob, isMatch) && err == l.err
  {
    var dirs, _, e := WalkTree(startDir, tree, ignore, maxDepth, depthOf);
    matches := SelectMatching(dirs, dirNameGlob, isMatch);
    err := e;
  }

  /** `FindFiles`: the files `WalkTree` lists whose base name matches the
      glob, in walk order, with the walk's error. */
  method FindFiles(startDir: string, tree: Entry, fileNameGlob: string, maxDepth: int, ignore: seq<string>,
                   depthOf: string -> int, isMatch: (string, string) -> bool)
    returns (matches: seq<string>, err: Option<Error>)
    ensures var l := Listed(startDir, tree, ignore, maxDepth, depthOf);
      matches == Matching(l.files, fileNameGlob, isMatch) && err == l.err
  {
    var _, files, e := WalkTree(startDir, tree, ignore, maxDepth, depthOf);
    matches := SelectMatching(files, fileNameGlob, isMatch);
    err := e;
  }

  /** `RemoveFiles`: when `FindFiles` fails its error is returned and
      nothing is removed; otherwise every match is handed to `os.Remove`, in
      order, whatever it returns, and no error is reported. `removed` is the
      sequence of those `os.Remove` calls. */
  method RemoveFiles(startDir: string, tree: Entry, fileNameGlob: string, maxDepth: int, ignore: seq<string>,
                     depthOf: string -> int, isMatch: (string, string) -> bool)
    returns (err: Option<Error>, removed: seq<string>)
    ensures var l := Listed(startDir, tree, ignore, maxDepth, depthOf);
      && (l.err.Some? ==> err == l.err && removed == [])
      && (l.err.None? ==> err == None && removed == Matching(l.files, fileNameGlob, isMatch))
  {
    var files, e := FindFiles(startDir, tree, fileNameGlob, maxDepth, ignore, depthOf, isMatch);
    if e.Some? {
      return e, [];
    }
    removed := RemoveEach(files);
    err := None;
  }

  /** The loop of `RemoveFiles`: `os.Remove` on each path, in turn. */
  method RemoveEach(files: seq<string>) returns (removed: seq<string>)
    ensures removed == files
  {
    removed := [];
    var i := 0;
    while i < |files|
      invariant 0 <= i <= |files|
      invariant removed == files[..i]
    {
      removed := removed + [files[i]];
      i := i + 1;
    }
  }

  /** `DirTreeSize`: the total size of the files the walk reaches, not
      descending into directories named in `excludeDirs`, and the walk's
      error; the total is what was added up before the error. */
  method DirTreeSize(root: string, tree: Entry, excludeDirs: seq<string>)
    returns (totSize: int, err: Option<Error>)
    ensures var t := Walk(root, tree, Excluding(excludeDirs));
      totSize == FileBytes(t.visits) && err == t.err
  {
    var t := Walk(root, tree, Excluding(excludeDirs));
    totSize := SumFileSizes(t.visits);
    err := t.err;
  }
}
