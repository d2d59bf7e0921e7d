/** The outcome of one shell command (shell.go:39-116): the captured
    output streams, the list of errors met on the way, and the flags the
    supervisor sets. */
module ShellResult {

  import opened Errors
  import opened GoStrings

  /** `resultOutput`: the bytes one stream of the command produced. */
  datatype Output = Output(buffer: string) {

    /** The output with all of its leading and trailing white space
        removed and nothing else; `stripNewLine` asks for one trailing
        newline to be removed as well, which `TrimSpace` has already done,
        so it never changes the result. */
    function Text(stripNewLine: bool): (r: string)
      ensures r == TrimSpace(buffer)
    {
      var val := TrimSpace(buffer);
      TrimmedNoNewline(val);
      var r := if !stripNewLine then val else TrimSuffix(val, "\n");
      assert r == val;
      r
    }

    /** The text cut at every newline: at least one line, none holding a
        newline, and joined back with newlines they give the text. */
    function Lines(): (lines: seq<string>)
      ensures |lines| >= 1
      ensures forall i :: 0 <= i < |lines| ==> '\n' !in lines[i]
      ensures Join(lines, "\n") == Text(false)
    {
      JoinSplit(Text(false), '\n');
      Split(Text(false), '\n')
    }
  }

  /** A trimmed string does not end with a newline. */
  lemma TrimmedNoNewline(s: string)
    requires Trimmed(s)
    ensures !HasSuffix(s, "\n")
  {
    if s != [] {
      assert s[|s| - 1..][0] == s[|s| - 1];
    }
  }

  /** `TrimSpace` has already removed any trailing newline, so the two
      forms of `Text` agree. */
  lemma {:induction false} StripNewLineNoEffect(o: Output)
    ensures o.Text(true) == o.Text(false)
  {
    TrimmedNoNewline(TrimSpace(o.buffer));
  }

  /** An output made only of white space (the empty one included) has the
      single line `""`. */
  lemma {:induction false} BlankOutputLines(o: Output)
    requires forall k :: 0 <= k < |o.buffer| ==> IsSpace(o.buffer[k])
    ensures o.Lines() == [""]
  {
    assert o.Text(false) == [];
  }

  /** An output with no surrounding white space and no newline is one
      line: itself. */
  lemma {:induction false} SingleLineOutput(o: Output)
    requires Trimmed(o.buffer) && '\n' !in o.buffer
    ensures o.Lines() == [o.buffer]
  {
    assert TrimLeftSpace(o.buffer) == o.buffer;
    assert TrimRightSpace(o.buffer) == o.buffer;
    SplitNoSep(o.buffer, '\n');
  }

  /** The messages of a list of errors, in order. */
  function Messages(errs: seq<Error>): (ms: seq<string>)
    ensures |ms| == |errs|
    ensures forall i :: 0 <= i < |errs| ==> ms[i] == errs[i].Message()
  {
    if errs == [] then [] else [errs[0].Message()] + Messages(errs[1..])
  }

  /** `resultError`: the errors met while preparing, running and
      supervising the command, in the order they happened. */
  datatype ResultError = ResultError(errs: seq<Error>) {

    /** The messages joined with newlines: "" for no error, the message
        itself for a single one. */
    function Error(): (s: string)
      ensures errs == [] ==> s == ""
      ensures |errs| == 1 ==> s == errs[0].Message()
    {
      Join(Messages(errs), "\n")
    }

    /** `String` is the same text as `Error`: the messages joined with
        newlines. */
    function String(): (s: string)
      ensures s == Error()
      ensures errs == [] ==> s == ""
      ensures |errs| == 1 ==> s == errs[0].Message()
    {
      Error()
    }

    /** The list after `append`: exactly `e` at the end, the earlier
        entries unchanged. */
    function Append(e: Error): (r: ResultError)
      ensures |r.errs| == |errs| + 1
      ensures r.errs[..|errs|] == errs && r.errs[|errs|] == e
    {
      ResultError(errs + [e])
    }
  }

  /** When no message holds a newline, cutting `Error()` at the newlines
      gives back the messages in list order. */
  lemma {:induction false} ErrorTextSplits(re: ResultError)
    requires re.errs != []
    requires forall i :: 0 <= i < |re.errs| ==> '\n' !in re.errs[i].Message()
    ensures Split(re.Error(), '\n') == Messages(re.errs)
    ensures Split(re.String(), '\n') == Messages(re.errs)
  {
    SplitJoin(Messages(re.errs), '\n');
  }

  /** The state of a `Result` that the supervisor writes, as a value. */
  datatype ResultState = ResultState(
    errors: seq<Error>,
    killed: bool,
    cancelled: bool,
    timedOut: bool,
    exitCode: int,
    duration: int)

  /** The state `newCommand` creates: no error, no flag, zeros. */
  const Initial: ResultState := ResultState([], false, false, false, 0, 0)

  /** `Result`: what a run of the command produced. */
  class Result {
    var Stdout: Output
    var Stderr: Output
    var errors: ResultError
    var Killed: bool
    var Cancelled: bool
    var TimedOut: bool
    var ExitCode: int
    var Duration: int

    /** The `&Result{...}` literal of `newCommand`: empty buffers, zero values. */
    constructor ()
      ensures State() == Initial
      ensures Stdout == Output("") && Stderr == Output("")
    {
      Stdout := Output("");
      Stderr := Output("");
      errors := ResultError([]);
      Killed, Cancelled, TimedOut := false, false, false;
      ExitCode, Duration := 0, 0;
    }

    function State(): ResultState
      reads this
    {
      ResultState(errors.errs, Killed, Cancelled, TimedOut, ExitCode, Duration)
    }

    /** `IsError`: some error was recorded. A nil list and an empty one
        both have length 0, so without an error the joined message is
        empty. */
    function IsError(): (b: bool)
      reads this
      ensures b <==> errors.errs != []
      ensures !b ==> errors.Error() == ""
    {
      |errors.errs| > 0
    }

    /** `AddError`: appends `e` to the error list and changes nothing else,
        so `IsError` holds afterwards whatever it was before. */
    method AddError(e: Error)
      modifies this
      ensures errors == old(errors).Append(e)
      ensures State() == old(State()).(errors := old(errors.errs) + [e])
      ensures IsError()
      ensures Stdout == old(Stdout) && Stderr == old(Stderr)
    {
      errors := errors.Append(e);
    }
  }
}
