# brinick/shell in Dafny

This is a model of the Go package `shell`. The package runs a command line through `bash -c` and supervises it. It also offers a few helpers that walk a directory tree.

The model covers four parts:

- **The `Result` bookkeeping.**
  - The append-only error list (`resultError`) and its joined message.
  - The two output streams: `Text` trims white space and `Lines` cuts at newlines.
  - The `Result` record, whose flags the supervisor sets.
- **The command.**
  - The `Timeout`, `Env` and `Cancel` options, applied in order by `newCommand`.
  - The environment the process is given.
  - What `start`, `exec` and `kill` write, and what the worker goroutine writes.
  - What each arm of the supervising `select` writes.
  - The race itself is an input: the arm that fires first (`Event`).
- **`DirDepth`**, in both of its versions.
  - shell.go compares the paths as given.
  - fileutils.go first makes them absolute with `filepath.Abs`.
- **The tree helpers** `WalkTree`, `FindDirs`, `FindFiles`, `RemoveFiles` and `DirTreeSize`.
  - `filepath.Walk` is modelled over an in-memory tree.
  - The walk is pre-order, with the children in the order of the tree's `children` sequence. Go's `ReadDir` sorts them by name; the model takes the order as given.
  - The root entry's name is not tied to `filepath.Base` of the root path; only its children's names are joined onto paths.
  - Paths are joined as `filepath.Join` joins them, so below the root `.` the paths are `a`, `a/b`, and so on.
  - A directory the callback answers with `SkipDir` is not entered.
  - The first `Lstat` or `ReadDir` failure ends the walk with that error.

Files:

| file | module | models |
|---|---|---|
| errors.dfy | `Errors` | `Option`, and Go's `error` values with their messages |
| gostrings.dfy | `GoStrings` | the `strings` functions the package uses |
| paths.dfy | `Paths` | `filepath.Base`, `filepath.Join` of a directory and a name, and the common tail of both `DirDepth`s |
| result.dfy | `ShellResult` | `resultOutput`, `resultError`, `Result` |
| command.dfy | `ShellCommand` | the options, `newCommand`, `command` and `runWithContext` |
| walk.dfy | `FsWalk` | `filepath.Walk` and the tree helpers |
| shell_fs.dfy | `ShellFs` | shell.go's `DirDepth` and its `currDepth` closure |
| fileutils.dfy | `FileUtils` | fileutils.go's `DirDepth` and its `currDepth` closure |

shell.go and fileutils.go both declare `DirTreeSize`, `DirDepth`, `WalkTree`, `FindDirs`, `FindFiles` and `RemoveFiles` in one package:

- Apart from the logging calls in shell.go's `RemoveFiles`, the walk helpers are the same text in both files.
- The only difference lies in the `DirDepth` behind the `currDepth` closure.
- `FsWalk` therefore models the helpers once, taking that closure as a parameter.
- `ShellFs.DepthIn` and `FileUtils.DepthIn` build the closure of each file.
- The table below cites fileutils.go for the shared helpers. The same code sits at shell.go:302-326 and shell.go:367-454.

The model takes the outside world as inputs:

- `os.Environ()` is the sequence `environ`.
- `os.Stat` is a function from paths to `StatResult`.
- `filepath.Dir`, `filepath.Abs` and `filepath.Match` are functions.
- The file system seen by `filepath.Walk` is an `Entry` tree.
- `Start`, `Wait` and `Process.Kill` are represented by the optional errors they return.
- `time.Now()` is two integers.

Where the code and what its comments, field names and test file suggest disagree, the model follows the code:

- `Lines` of an empty (or blank) output is `[""]`, not `[]`. `strings.Split("", "\n")` has one piece (`ShellResult.BlankOutputLines`).
- A non-zero exit status makes `Wait` return an error, and `exec` records it. So `IsError` is true after such a run: it is the `waitErr` input.
- `ExitCode` is never written, so it stays 0 (`ShellCommand.Outcome`).
- `Process.Kill` on a process that has already exited returns an error, and `kill` records it. That is the `killErr` input.
- The code has no background mode, no "crashed" outcome and no incremental reads of the output.

## Model

| member | source | states |
|---|---|---|
| GoStrings.TrimSpace | shell.go:106 | `strings.TrimSpace`: the result is the slice of the input that starts at its first non-space character, and everything before and after that slice is white space (in the sense of `unicode.IsSpace`). The result itself has no white space at either end, and it is empty for an all-space input |
| GoStrings.JoinSplit | shell.go:115 | joining the pieces of `strings.Split` with the separator gives back the string |
| GoStrings.SplitJoin | shell.go:115 | splitting the join of separator-free pieces gives back the pieces |
| GoStrings.TrimSuffix | shell.go:110 | `strings.TrimSuffix`: a string ending in the suffix is the result followed by the suffix; any other string is unchanged |
| GoStrings.TrimChar | shell.go:358 | `strings.Trim(s, "/")`: the result is the slice of `s` that starts after its leading run of `/`, everything before and after that slice is `/`, neither end of the result is `/`, and an all-`/` input gives `""` |
| GoStrings.ReplaceFirst | shell.go:357 | `strings.Replace(s, target, with, 1)`: a string that starts with `target` has that prefix replaced; a string without `target` is unchanged |
| Paths.Base | fileutils.go:60 | `filepath.Base`: `.` for the empty path and `/` for a path of slashes only. Otherwise it is the last element once trailing slashes are dropped: a non-empty suffix without `/` that is the whole trimmed path or follows a `/` in it |
| Paths.StripSlash | shell.go:334-339 | drops one trailing `/` and nothing else: the result is the input, or the input is the result plus `/`, and it differs from the input exactly when the input ends in `/` |
| Paths.JoinPath | fileutils.go:23-25 | the path `filepath.Walk` gives a child: the name alone below `.` or an empty directory, `/name` below `/`, and `dir/name` below any other directory not ending in `/` |
| Paths.BaseOfJoin | fileutils.go:60 | the base name of a path the walk builds from a directory and an entry name is that entry name |
| Paths.DepthBelow | shell.go:340-360 | the shared tail of both `DirDepth`s: equal paths give `(0, nil)`; a path that does not start with root gives `(0, "<root> not a prefix of <path>")` before any `Stat`; a `Stat` failure gives `(0, err)`; otherwise no error and a depth of at least 1 |
| Paths.DirectoryDepth | shell.go:353-360 | a directory reached from root through `k` plain names is at depth `k` |
| Paths.FileInDirectoryDepth | shell.go:350-360 | a file whose parent (`filepath.Dir`) is `k` plain names below root is at depth `k`, the depth of that directory |
| Paths.FileInRootDepth | fileutils.go:158-165 | a file whose parent is root is at depth 1, because splitting `""` gives one piece |
| ShellResult.Output.Text | shell.go:105-111 | `Text` is `TrimSpace` of the buffer, whatever `stripNewLine` says. So it is the buffer with exactly its leading and trailing white space removed: a slice of the buffer with only white space around it, and none at its own ends |
| ShellResult.StripNewLineNoEffect | shell.go:105-111 | `Text(true) == Text(false)`: `TrimSpace` has already removed any trailing newline |
| ShellResult.Output.Lines | shell.go:114-116 | at least one line, no line holds a newline, and joining the lines with `"\n"` gives `Text(false)` back |
| ShellResult.BlankOutputLines | shell.go:114-116 | an empty or all-space output has exactly the one line `""` |
| ShellResult.SingleLineOutput | shell.go:114-116 | a trimmed output without a newline is one line, itself |
| ShellResult.Messages | shell.go:79-82 | one message per error, in list order, each being that error's `Error()` |
| ShellResult.ResultError.Error | shell.go:78-85 | an empty list gives `""`, and a single error gives its own message |
| ShellResult.ErrorTextSplits | shell.go:78-94 | when no message holds a newline, cutting `Error()` (and `String()`) at the newlines gives back the messages in list order |
| ShellResult.ResultError.String | shell.go:92-94 | `String` is the text of `Error`: empty for no error, the one message for a single error |
| ShellResult.ResultError.Append | shell.go:88-90 | the list grows by one: the earlier entries are unchanged and the new error is last |
| ShellResult.Result.constructor | shell.go:273-277 | a new `Result` has no error, no flag set, zero exit code and duration, and empty outputs |
| ShellResult.Result.IsError | shell.go:54-56 | true exactly when the error list is non-empty (a nil list has length 0); without an error the joined message is empty |
| ShellResult.Result.AddError | shell.go:59-61 | appends exactly `e` and changes nothing else; `IsError` holds afterwards, so once true it stays true |
| ShellCommand.ApplyOption | shell.go:238-263 | each option writes only its own field. `Timeout` sets a positive value and ignores others. `Env` appends its values to the current `env`, or to the inherited environment when `env` is empty. `Cancel` sets the stop channel, nil included |
| ShellCommand.ResolveEnv | shell.go:284-287 | the process gets the options' environment when it is non-empty, and the inherited one otherwise; so it is empty only when both are |
| ShellCommand.TimeoutKeptWithoutPositive | shell.go:238-244 | options without a positive `Timeout` leave the timeout as it was |
| ShellCommand.LastPositiveTimeoutWins | shell.go:238-244 | the last positive `Timeout` decides the timeout, whatever non-positive ones follow it |
| ShellCommand.StopKeptWithoutCancel | shell.go:259-263 | options without `Cancel` leave the stop channel as it was |
| ShellCommand.LastCancelWins | shell.go:259-263 | the last `Cancel` decides the stop channel |
| ShellCommand.EnvAfterOptions | shell.go:247-255 | after the options, `env` is empty when no `Env` was given; otherwise it is the inherited environment followed by every `Env` argument in call order |
| ShellCommand.FinalEnvironment | shell.go:284-289 | the process's environment is the inherited one followed by every `Env` argument in call order, even with no `Env` option or only empty ones |
| ShellCommand.Command.constructor | shell.go:269-278 | a new command has the executable and arguments, unset options, no process, and a fresh `Result` in its initial state |
| ShellCommand.Command.Apply | shell.go:238-263 | running one option's closure changes the option fields exactly as that option says, and nothing else |
| ShellCommand.NewCommand | shell.go:268-294 | the options are applied in order; the process environment is the inherited one followed by every `Env` argument; the result is untouched |
| ShellCommand.Command.Start | shell.go:139-146 | a failed `Start` is recorded once and returned; a successful one marks the process started |
| ShellCommand.Command.Exec | shell.go:150-157 | a failed `Wait` is recorded once and returned |
| ShellCommand.Command.Kill | shell.go:221-230 | sets `Killed`, then records the `Process.Kill` error if there is one |
| ShellCommand.Command.Launch | shell.go:180-184 | a failed start is recorded twice, once by `start` and once by the goroutine, and the worker stops there |
| ShellCommand.Command.Finish | shell.go:185-186 | after a start, the `Wait` error is recorded, then `Duration` is set to end minus start |
| ShellCommand.Command.Worker | shell.go:177-187 | the whole worker body: `Launch`, then `Finish` when the start succeeded |
| ShellCommand.Branch | shell.go:189-207 | `ProcessDone` changes nothing, and is the only arm that changes nothing. Every other arm keeps the earlier errors, sets `Killed`, and appends its own error (`"Cancelled"`, the deadline error or the cancel error) and then the kill error. `Stop` and a context cancel set `Cancelled`, a deadline sets `TimedOut`. Exit code and duration are left alone |
| ShellCommand.Command.Select | shell.go:189-207 | the arm that fires writes what `Branch` says |
| ShellCommand.Outcome | shell.go:164-210 | never both `Cancelled` and `TimedOut`; `ExitCode` stays 0. `Killed` iff an arm other than `ProcessDone` fired. There are errors iff such an arm fired, the start failed or `Wait` failed. A failed start gives that error twice and no duration. Otherwise the duration is end minus start, and a finished process has exactly its `Wait` error |
| ShellCommand.Command.RunWithContext | shell.go:164-210 | the `Result` after the arm that fires and the worker is `Outcome`; `IsError` iff an arm other than `ProcessDone` fired or the start or `Wait` failed |
| ShellCommand.Run | shell.go:28-35 | runs the command line through `bash -c` on a new command and returns its `Result`, which is `Outcome` |
| FsWalk.Walk | fileutils.go:23-48 | the paths are built with `JoinPath`, as `filepath.Join` builds them. The first call is for the root. Every call before the last is for an entry that did not fail. The walk returns an error exactly when the last call reported one, and returns that error unchanged |
| FsWalk.WalkOnlyBelowKeptDirs | fileutils.go:33-41 | every call after the first is for a child of a directory called earlier and not skipped. So nothing below a skipped directory is visited, and no entry is called before its parent |
| FsWalk.ChildrenVisits | fileutils.go:23-48 | the concatenated walks of a directory's children from child `i` on, each child's walk in full and in `children` order, are exactly the calls the walk of those children makes when it ends without error |
| FsWalk.WalkIsPreOrder | fileutils.go:23-48 | a walk without error of a directory that is not skipped calls it first, then the whole walk of each child in turn, in `children` order (`ChildrenVisits`). Each child's run is that child's own walk, so this holds at every level: the order is pre-order, and every entry below an unskipped directory is called |
| FsWalk.FullWalkBytes | fileutils.go:102-126 | over a tree with no failing entry and nothing excluded, the walk ends without error and its files add up to the size of the whole tree |
| FsWalk.ExcludedRootIsEmpty | fileutils.go:111-116 | a root directory named in `excludeDirs` is not entered: the total is 0 and there is no error |
| FsWalk.ListedDirs | fileutils.go:33-43 | with a positive `maxdepth`, every listed directory is at most `maxdepth` deep |
| FsWalk.ListedFilesExactly | fileutils.go:30-31 | a path is in `files` iff the walk called the callback for a file at that path |
| FsWalk.ListedDirsExactly | fileutils.go:33-43 | a path is in `dirs` iff the walk called the callback for a directory at that path that was neither deeper than a positive `maxdepth` nor named in `excludeDirs` |
| FsWalk.MatchingExactly | fileutils.go:58-64 | a path is kept iff it is among the input paths and its base name matches the glob; a glob error counts as no match |
| FsWalk.MatchingConcat | fileutils.go:58-64 | the selection keeps the order of the paths: it distributes over concatenation |
| FsWalk.Prune | fileutils.go:33-41 | `WalkTree` skips an entry exactly when it is a directory and either its name is in `excludeDirs` or `maxdepth` is positive and its `currDepth` exceeds `maxdepth`; both directions are stated. With `maxdepth` at 0 or below, only the name decides |
| FsWalk.Excluding | fileutils.go:111-116 | `DirTreeSize` skips exactly what `WalkTree` would skip with no depth limit |
| FsWalk.Excluded | fileutils.go:37-41 | the loop over `excludeDirs` finds the name iff it is in the list |
| FsWalk.ListVisits | fileutils.go:25-47 | the callback run on the calls in order appends exactly `ListedDirs` and `ListedFiles` |
| FsWalk.SumFileSizes | fileutils.go:106-121 | the callback run on the calls in order adds up exactly the sizes of the files, starting from 0 |
| FsWalk.SelectMatching | fileutils.go:58-64 | the loop keeps exactly `Matching`: the matching paths, in order |
| FsWalk.WalkTree | fileutils.go:14-51 | returns the listed directories and files of the walk pruned by depth and by name, and the walk's error |
| FsWalk.FindDirs | fileutils.go:56-66 | the directories `WalkTree` lists whose base name matches, in walk order, and the walk's error unchanged |
| FsWalk.FindFiles | fileutils.go:71-81 | the files `WalkTree` lists whose base name matches, in walk order, and the walk's error unchanged |
| FsWalk.RemoveFiles | fileutils.go:85-96 | when `FindFiles` fails, its error is returned and nothing is removed. Otherwise every match is removed, in order; removal errors are ignored and no error is returned |
| FsWalk.RemoveEach | fileutils.go:91-93 | the loop calls `os.Remove` on every listed path, once each, in order |
| FsWalk.DirTreeSize | fileutils.go:102-126 | the sum of the sizes of the files the walk reaches without entering excluded directories, and the walk's error; on an error, the sum so far |
| ShellFs.DirDepth | shell.go:332-361 | one trailing `/` is dropped from each argument. No depth is negative, and every error comes with depth 0. Then: equal paths give `(0, nil)`; a path that does not start with root gives the "not a prefix" error before any `Stat`; a `Stat` failure gives `(0, err)`; otherwise no error and a depth of at least 1 |
| ShellFs.TrailingSlashIgnored | shell.go:334-339 | a trailing `/` on root or on path does not change the result |
| ShellFs.SubdirectoryDepth | shell.go:353-360 | a directory reached from root through `k` plain names is at depth `k` |
| ShellFs.FileInRootDepthOne | shell.go:353-360 | a file whose parent is root is at depth 1 |
| ShellFs.SiblingCountsAsBelow | shell.go:344-346 | the prefix test is on text: `/ab` is one level below `/a` |
| ShellFs.DepthIn | shell.go:371-374 | `currDepth` drops `DirDepth`'s error: root is at depth 0, no depth is negative, a failed `DirDepth` counts as depth 0, and a successful one gives its level count |
| ShellFs.FileAtParentDepth | shell.go:328-331 | as the comment on `DirDepth` says, a file is at the depth of its parent directory: when `filepath.Dir` of the file is `k` plain names below root, both have depth `k` and no error |
| ShellFs.DotRootDepthZero | shell.go:344-346 | below the root `.`, a path the walk builds whose first element does not start with `.` (`a`, `a/b`) fails the textual prefix test: `DirDepth` reports the "not a prefix" error with depth 0, so `currDepth` is 0 and a positive `maxdepth` never prunes it |
| ShellFs.HiddenEntryDepth | shell.go:344-360 | below the root `.`, a directory path whose first element is hidden (`.git/hooks`) does start with `.`: `Replace` drops that dot and the depth is the number of elements, without error, so a positive `maxdepth` does prune there |
| ShellFs.ListedWithinDepth | shell.go:386-388 | with a positive `maxdepth`, no directory `WalkTree` lists lies more than `maxdepth` plain names below root |
| FileUtils.Normalise | fileutils.go:133-140 | `removeTrailingSlash`: `Abs` of the argument with one trailing `/` dropped; when `Abs` changes nothing it is shell.go's `/` stripping |
| FileUtils.DirDepth | fileutils.go:132-166 | one trailing `/` is dropped from each argument and `Abs` is applied. No depth is negative, and every error comes with depth 0. Then: equal paths give `(0, nil)`; a path that does not start with root gives the "not a prefix" error before any `Stat`; a `Stat` failure gives `(0, err)`; otherwise no error and a depth of at least 1 |
| FileUtils.AbsoluteArgumentsAgree | fileutils.go:133-140 | for arguments that `Abs` leaves unchanged (absolute, clean paths), fileutils.go's `DirDepth` equals shell.go's |
| FileUtils.FileInRootDepthOne | fileutils.go:158-165 | a file whose parent is the absolute root is at depth 1 |
| FileUtils.SubdirectoryDepth | fileutils.go:158-165 | a directory reached from the absolute root through `k` plain names is at depth `k` |
| FileUtils.CurrDepth | fileutils.go:18-21 | `currDepth(path)` is never negative, is 0 for a path that normalises to root, is 0 whenever `DirDepth` failed, and is `DirDepth`'s level count when it succeeded |
| FileUtils.DepthIn | fileutils.go:18-21 | the closure `WalkTree` uses: for every path, never negative, 0 at root, 0 when `DirDepth` failed, and `DirDepth`'s level count when it succeeded |
| FileUtils.FileAtParentDepth | fileutils.go:128-131 | as the comment on `DirDepth` says, a file is at the depth of its parent directory: when `filepath.Dir` of the normalised file path is `k` plain names below the absolute root, the file has depth `k` and no error |
| FileUtils.ListedWithinDepth | fileutils.go:33-35 | with a positive `maxdepth`, no directory `WalkTree` lists lies more than `maxdepth` plain names below the absolute root |

## Left out

- The goroutine and `select` race is not modelled:
  - The arm that fires first is the input `Event`.
  - The `done` channel, `Ready` and `SetReady` are not modelled.
- `ShellCommand.Outcome` fixes one order of the writes: the interrupting arm's error and the kill error first, then the worker's `Wait` error and its duration.
  - Go's `select` picks at random among ready cases. An interrupting arm can therefore fire after the worker has finished and sent on `done`. The errors are then `[waitErr, armErr, killErr]`, which the model does not produce.
  - The worker's writes may also come after `runWithContext` has returned.
  - The arm's `AddError` and the worker's run in two goroutines with no lock around the append (shell.go:89). That is a data race, so Go does not even guarantee the number of errors the model states.
- `ShellCommand.Command.RunWithContext` requires a started process whenever an arm other than `ProcessDone` fires. It also requires a non-nil stop channel for `Stop`. In Go, `kill` after a failed start, or before the start, dereferences a nil `Process` and panics. That path is a precondition, not a behaviour.
- `exec.Command`, `Start`, `Wait` and `Process.Kill` are foreign calls. They are represented by the optional errors they return. What the process writes to the stdout and stderr buffers is not modelled: `Output` is the buffer's contents.
- `time.Now` and `context.WithTimeout` are not modelled. The two clock readings are parameters, and the deadline is the `CtxDeadline` event. So the timeout value only decides whether that event can happen.
- `os.Environ`, `os.Stat`, `filepath.Abs`, `filepath.Dir` and `filepath.Match` are parameters. `filepath.Walk`'s file system is an in-memory tree, and `os.Remove` is the sequence of paths it is called on.
- `Paths.JoinPath` models `filepath.Join` only for what the walk joins: a directory path and a plain entry name. It is exact for clean directory paths, `.` included. It does not model `filepath.Clean` of an unclean root.
- `FsWalk.Walk`: for an unclean root such as `./a` or `a//`, Go cleans the children's paths to `a/x`, and the model gives `./a/x` and `a//x`.
- `FsWalk.WalkTree`: lists those uncleaned paths for an unclean root, as `Walk` visits them.
- `FsWalk.DirTreeSize`, `FsWalk.SumFileSizes`: the total is an unbounded integer. The 64-bit wrap-around of `totSize` is not modelled; it needs over 8 EiB of files.
- Strings are sequences of code points. Invalid UTF-8 in command output is not modelled.
- `command.String` (the command line as text) is not modelled. The package-level `Run` and the method `run` only call `RunWithContext` with `context.TODO()`; the caller's context matters only through the `CtxDeadline` and `CtxCanceled` events, so both are covered by `ShellCommand.Run`.
- The `logging` calls in shell.go's `RemoveFiles` are not modelled.
- shell_internal_test.go is not part of this model.
