/** The shell command supervisor of shell.go:120-294: the options and the
    fold that applies them, and the writes that starting, waiting, killing
    and each arm of the supervising `select` make to the `Result`.

    The goroutine and the `select` race are not modelled: the arm that wins
    is an input (`Event`), and so are the errors that `Start`, `Wait` and
    `Process.Kill` return and the two clock readings. */
module ShellCommand {

  import opened Errors
  import opened ShellResult

  /** A `<-chan struct{}` handed to `Cancel`. `Nil` is the nil channel,
      which a `select` never receives from. */
  datatype Chan = Nil | Chan(id: nat)

  /** `Option`: a setting passed to `Run`. */
  datatype CommandOption =
    | Timeout(secs: int)
    | Env(values: seq<string>)
    | Cancel(stop: Chan)

  /** The fields of `command` that options write. */
  datatype Settings = Settings(timeout: int, env: seq<string>, stop: Chan)

  /** The zero values `newCommand` starts from. */
  const Unset: Settings := Settings(0, [], Nil)

  /** What the closure an option returns does to the command. `environ` is
      the inherited environment, `os.Environ()`. */
  function ApplyOption(s: Settings, o: CommandOption, environ: seq<string>): (r: Settings)
    ensures o.Timeout? ==> r.env == s.env && r.stop == s.stop
    ensures o.Timeout? ==> r.timeout == (if o.secs > 0 then o.secs else s.timeout)
    ensures o.Env? ==> r.timeout == s.timeout && r.stop == s.stop
    ensures o.Env? && |s.env| > 0 ==> r.env == s.env + o.values
    ensures o.Env? && |s.env| == 0 ==> r.env == environ + o.values
    ensures o.Cancel? ==> r == Settings(s.timeout, s.env, o.stop)
  {
    match o
    case Timeout(secs) => if secs > 0 then s.(timeout := secs) else s
    case Env(values) => s.(env := (if |s.env| > 0 then s.env else environ) + values)
    case Cancel(stop) => s.(stop := stop)
  }

  /** The options applied in the order given. */
  function ApplyAll(s: Settings, opts: seq<CommandOption>, environ: seq<string>): Settings {
    if opts == [] then s
    else ApplyOption(ApplyAll(s, opts[..|opts| - 1], environ), opts[|opts| - 1], environ)
  }

  /** The environment `newCommand` gives the process: the one the options
      built, or the inherited one when they built none. */
  function ResolveEnv(env: seq<string>, environ: seq<string>): (r: seq<string>)
    ensures |env| > 0 ==> r == env
    ensures |env| == 0 ==> r == environ
    ensures |r| == 0 ==> |env| == 0 && |environ| == 0
  {
    if |env| == 0 then environ else env
  }

  /** The arguments of every `Env` option, concatenated in call order. */
  function EnvArgs(opts: seq<CommandOption>): seq<string> {
    if opts == [] then []
    else
      var last := opts[|opts| - 1];
      EnvArgs(opts[..|opts| - 1]) + (if last.Env? then last.values else [])
  }

  /** Some option is an `Env`. */
  predicate HasEnv(opts: seq<CommandOption>) {
    opts != [] && (opts[|opts| - 1].Env? || HasEnv(opts[..|opts| - 1]))
  }

  predicate PositiveTimeout(o: CommandOption) {
    o.Timeout? && o.secs > 0
  }

  /** Without a positive `Timeout` the timeout keeps its value. */
  lemma {:induction false} TimeoutKeptWithoutPositive(s: Settings, opts: seq<CommandOption>, environ: seq<string>)
    requires forall i :: 0 <= i < |opts| ==> !PositiveTimeout(opts[i])
    ensures ApplyAll(s, opts, environ).timeout == s.timeout
  {
    if opts != [] {
      TimeoutKeptWithoutPositive(s, opts[..|opts| - 1], environ);
    }
  }

  /** The last positive `Timeout` sets the timeout: one given after it
      with `secs <= 0` does not undo it. */
  lemma {:induction false} LastPositiveTimeoutWins(s: Settings, opts: seq<CommandOption>, environ: seq<string>, i: nat)
    requires i < |opts| && PositiveTimeout(opts[i])
    requires forall j :: i < j < |opts| ==> !PositiveTimeout(opts[j])
    ensures ApplyAll(s, opts, environ).timeout == opts[i].secs
  {
    if i < |opts| - 1 {
      LastPositiveTimeoutWins(s, opts[..|opts| - 1], environ, i);
    }
  }

  /** Without a `Cancel` the stop channel keeps its value. */
  lemma {:induction false} StopKeptWithoutCancel(s: Settings, opts: seq<CommandOption>, environ: seq<string>)
    requires forall i :: 0 <= i < |opts| ==> !opts[i].Cancel?
    ensures ApplyAll(s, opts, environ).stop == s.stop
  {
    if opts != [] {
      StopKeptWithoutCancel(s, opts[..|opts| - 1], environ);
    }
  }

  /** The last `Cancel` sets the stop channel, the nil one included. */
  lemma {:induction false} LastCancelWins(s: Settings, opts: seq<CommandOption>, environ: seq<string>, i: nat)
    requires i < |opts| && opts[i].Cancel?
    requires forall j :: i < j < |opts| ==> !opts[j].Cancel?
    ensures ApplyAll(s, opts, environ).stop == opts[i].stop
  {
    if i < |opts| - 1 {
      LastCancelWins(s, opts[..|opts| - 1], environ, i);
    }
  }

  /** After the options, `env` is empty if no `Env` was given, and the
      inherited environment followed by every `Env` argument otherwise. */
  lemma {:induction false} EnvAfterOptions(opts: seq<CommandOption>, environ: seq<string>)
    ensures ApplyAll(Unset, opts, environ).env ==
      if HasEnv(opts) then environ + EnvArgs(opts) else []
    ensures !HasEnv(opts) ==> EnvArgs(opts) == []
  {
    if opts != [] {
      var init := opts[..|opts| - 1];
      var last := opts[|opts| - 1];
      EnvAfterOptions(init, environ);
      EnvStep(ApplyAll(Unset, init, environ), last, environ, EnvArgs(init), HasEnv(init));
    }
  }

  /** One option's effect on `env`, given what the earlier ones built. */
  lemma EnvStep(before: Settings, last: CommandOption, environ: seq<string>, args: seq<string>, had: bool)
    requires before.env == if had then environ + args else []
    requires !had ==> args == []
    ensures ApplyOption(before, last, environ).env ==
      if had || last.Env? then environ + args + (if last.Env? then last.values else []) else []
  {
    if last.Env? && |before.env| > 0 {
      assert before.env + last.values == environ + args + last.values;
    }
  }

  /** The environment the process gets is the inherited one followed by
      the arguments of every `Env` option in call order; this holds with
      no `Env` option and with empty ones too. */
  lemma FinalEnvironment(opts: seq<CommandOption>, environ: seq<string>)
    ensures ResolveEnv(ApplyAll(Unset, opts, environ).env, environ) == environ + EnvArgs(opts)
  {
    EnvAfterOptions(opts, environ);
  }

  /** The arm of the supervising `select` that fires first. */
  datatype Event = Stop | ProcessDone | CtxDeadline | CtxCanceled

  /** Appends an optional error. */
  function Record(s: ResultState, e: Option<Error>): ResultState {
    s.(errors := s.errors + Errs(e))
  }

  /** What `kill` writes: `Killed`, then the error `Process.Kill` returned. */
  function Killing(s: ResultState, killErr: Option<Error>): ResultState {
    Record(s.(killed := true), killErr)
  }

  /** What the arm that fires writes (shell.go:189-207): nothing when the
      process is done; otherwise its flag, `Killed`, its own error and then
      the kill error, appended after the earlier errors. */
  function Branch(s: ResultState, ev: Event, killErr: Option<Error>): (r: ResultState)
    ensures ev == ProcessDone <==> r == s
    ensures |r.errors| >= |s.errors| && r.errors[..|s.errors|] == s.errors
    ensures ev != ProcessDone ==>
      && r.killed
      && r.errors[|s.errors|..] ==
         [if ev == Stop then Failure("Cancelled") else if ev == CtxDeadline then DeadlineExceeded else Canceled]
         + Errs(killErr)
    ensures r.cancelled <==> s.cancelled || ev == Stop || ev == CtxCanceled
    ensures r.timedOut <==> s.timedOut || ev == CtxDeadline
    ensures r.exitCode == s.exitCode && r.duration == s.duration
  {
    match ev
    case ProcessDone => s
    case Stop => Killing(s.(cancelled := true).(errors := s.errors + [Failure("Cancelled")]), killErr)
    case CtxDeadline => Killing(s.(timedOut := true).(errors := s.errors + [DeadlineExceeded]), killErr)
    case CtxCanceled => Killing(s.(cancelled := true).(errors := s.errors + [Canceled]), killErr)
  }

  /** The first half of the worker goroutine (shell.go:180-184): a failed
      start is recorded twice, once by `start` and once by the goroutine. */
  function Launched(s: ResultState, startErr: Option<Error>): ResultState {
    Record(Record(s, startErr), startErr)
  }

  /** The second half of the worker (shell.go:185-186): the `Wait` error,
      then the duration. */
  function Finished(s: ResultState, waitErr: Option<Error>, started: int, ended: int): ResultState {
    Record(s, waitErr).(duration := ended - started)
  }

  /** The whole worker body (shell.go:177-187). */
  function Worked(s: ResultState, startErr: Option<Error>, waitErr: Option<Error>, started: int, ended: int): ResultState {
    if startErr.Some? then Launched(s, startErr) else Finished(s, waitErr, started, ended)
  }

  /** The `Result` of one run, once the worker has also finished. When the
      process finishes first, the worker writes and the `select` adds
      nothing; otherwise the arm that fired writes first and the worker's
      `Wait` returns after the kill. A start failure means the worker
      finishes at once, so its arm is `ProcessDone`. */
  function Outcome(ev: Event, startErr: Option<Error>, waitErr: Option<Error>, killErr: Option<Error>,
                   started: int, ended: int): (r: ResultState)
    requires startErr.Some? ==> ev == ProcessDone
    ensures !(r.cancelled && r.timedOut)
    ensures r.exitCode == 0
    ensures r.killed <==> ev != ProcessDone
    ensures r.cancelled <==> ev == Stop || ev == CtxCanceled
    ensures r.timedOut <==> ev == CtxDeadline
    ensures r.errors != [] <==> ev != ProcessDone || startErr.Some? || waitErr.Some?
    ensures startErr.Some? ==> r.errors == [startErr.value, startErr.value] && r.duration == 0
    ensures startErr.None? ==> r.duration == ended - started
    ensures ev == ProcessDone && startErr.None? ==> r.errors == Errs(waitErr)
    ensures ev != ProcessDone ==> |r.errors| == 1 + |Errs(killErr)| + |Errs(waitErr)|
  {
    if ev == ProcessDone then Branch(Worked(Initial, startErr, waitErr, started, ended), ev, killErr)
    else Finished(Branch(Launched(Initial, startErr), ev, killErr), waitErr, started, ended)
  }

  /** `command`: one shell command and its result. */
  class Command {
    const exe: string
    const args: seq<string>
    var timeout: int
    var env: seq<string>
    var stop: Chan
    /** `c.Env`, the environment the process is started with. */
    var cmdEnv: seq<string>
    /** `c.Process != nil`: `Start` succeeded. */
    var started: bool
    const result: Result

    /** The `&command{...}` literal of `newCommand`. */
    constructor (executable: string, arguments: seq<string>)
      ensures exe == executable && args == arguments
      ensures Configured() == Unset && cmdEnv == [] && !started
      ensures fresh(result) && result.State() == Initial
    {
      exe, args := executable, arguments;
      timeout, env, stop := 0, [], Nil;
      cmdEnv, started := [], false;
      result := new Result();
    }

    function Configured(): Settings
      reads this
    {
      Settings(timeout, env, stop)
    }

    /** Runs the closure of one option on this command. */
    method Apply(o: CommandOption, environ: seq<string>)
      modifies this
      ensures Configured() == ApplyOption(old(Configured()), o, environ)
      ensures cmdEnv == old(cmdEnv) && started == old(started)
    {
      match o
      case Timeout(secs) =>
        if secs > 0 {
          timeout := secs;
        }
      case Env(values) =>
        if |env| > 0 {
          env := env + values;
        } else {
          env := environ + values;
        }
      case Cancel(ch) =>
        stop := ch;
    }

    /** `start`: a failed `Start` is recorded and returned. */
    method Start(startErr: Option<Error>) returns (err: Option<Error>)
      requires !started
      modifies this, result
      ensures err == startErr && started == startErr.None?
      ensures result.State() == Record(old(result.State()), startErr)
      ensures Configured() == old(Configured()) && cmdEnv == old(cmdEnv)
    {
      if startErr.Some? {
        result.AddError(startErr.value);
        return startErr;
      }
      started := true;
      return None;
    }

    /** `exec`: a failed `Wait` is recorded and returned. */
    method Exec(waitErr: Option<Error>) returns (err: Option<Error>)
      requires started
      modifies result
      ensures err == waitErr
      ensures result.State() == Record(old(result.State()), waitErr)
    {
      if waitErr.Some? {
        result.AddError(waitErr.value);
        return waitErr;
      }
      return None;
    }

    /** `kill`: sets `Killed`, then records a failed `Process.Kill`. It
        needs a started process: on a failed start `Process` is nil. */
    method Kill(killErr: Option<Error>) returns (err: Option<Error>)
      requires started
      modifies result
      ensures err == killErr
      ensures result.State() == Killing(old(result.State()), killErr)
    {
      result.Killed := true;
      if killErr.Some? {
        result.AddError(killErr.value);
        return killErr;
      }
      return None;
    }

    /** The worker goroutine up to its `return` on a failed start. */
    method Launch(startErr: Option<Error>) returns (ok: bool)
      requires !started
      modifies this, result
      ensures ok == startErr.None? && started == ok
      ensures result.State() == Launched(old(result.State()), startErr)
      ensures Configured() == old(Configured()) && cmdEnv == old(cmdEnv)
    {
      var err := Start(startErr);
      if err.Some? {
        result.AddError(err.value);
        return false;
      }
      return true;
    }

    /** The worker goroutine after a successful start. */
    method Finish(waitErr: Option<Error>, startedAt: int, endedAt: int)
      requires started
      modifies result
      ensures result.State() == Finished(old(result.State()), waitErr, startedAt, endedAt)
    {
      var _ := Exec(waitErr);
      result.Duration := endedAt - startedAt;
    }

    /** The whole worker goroutine, when nothing interrupts it. */
    method Worker(startErr: Option<Error>, waitErr: Option<Error>, startedAt: int, endedAt: int)
      requires !started
      modifies this, result
      ensures result.State() == Worked(old(result.State()), startErr, waitErr, startedAt, endedAt)
      ensures started == startErr.None?
      ensures Configured() == old(Configured()) && cmdEnv == old(cmdEnv)
    {
      var ok := Launch(startErr);
      if ok {
        Finish(waitErr, startedAt, endedAt);
      }
    }

    /** The arm of the `select` that fires; the context arm's `switch` on
        `ctx.Err()` is split by the two errors it can see. The stop arm needs a non-nil
        channel; the two arms that kill need a started process. */
    method Select(ev: Event, killErr: Option<Error>)
      requires ev == Stop ==> stop != Nil
      requires ev != ProcessDone ==> started
      modifies result
      ensures result.State() == Branch(old(result.State()), ev, killErr)
    {
      match ev
      case Stop =>
        result.Cancelled := true;
        result.AddError(Failure("Cancelled"));
        var _ := Kill(killErr);
      case ProcessDone =>
      case CtxDeadline =>
        result.TimedOut := true;
        result.AddError(DeadlineExceeded);
        var _ := Kill(killErr);
      case CtxCanceled =>
        result.Cancelled := true;
        result.AddError(Canceled);
        var _ := Kill(killErr);
    }

    /** `runWithContext` with the race decided by `ev`, run on a fresh
        command until the worker has also finished. */
    method RunWithContext(ev: Event, startErr: Option<Error>, waitErr: Option<Error>, killErr: Option<Error>,
                          startedAt: int, endedAt: int)
      requires !started && result.State() == Initial
      requires ev == Stop ==> stop != Nil
      requires startErr.Some? ==> ev == ProcessDone
      modifies this, result
      ensures result.State() == Outcome(ev, startErr, waitErr, killErr, startedAt, endedAt)
      ensures result.IsError() <==> ev != ProcessDone || startErr.Some? || waitErr.Some?
      ensures !(result.Cancelled && result.TimedOut) && result.ExitCode == 0
    {
      if ev == ProcessDone {
        Worker(startErr, waitErr, startedAt, endedAt);
        Select(ev, killErr);
      } else {
        var _ := Launch(startErr);
        Select(ev, killErr);
        Finish(waitErr, startedAt, endedAt);
      }
    }
  }

  /** `newCommand`: a command for `executable` with `args`, the options
      applied in order, then the environment resolved. */
  method NewCommand(executable: string, args: seq<string>, options: seq<CommandOption>, environ: seq<string>)
    returns (s: Command)
    ensures fresh(s) && fresh(s.result)
    ensures s.exe == executable && s.args == args
    ensures s.Configured() == ApplyAll(Unset, options, environ)
    ensures s.cmdEnv == environ + EnvArgs(options)
    ensures !s.started && s.result.State() == Initial
  {
    s := new Command(executable, args);
    var i := 0;
    while i < |options|
      invariant 0 <= i <= |options|
      invariant s.Configured() == ApplyAll(Unset, options[..i], environ)
      invariant !s.started && s.result.State() == Initial
    {
      s.Apply(options[i], environ);
      assert options[..i + 1][..i] == options[..i];
      i := i + 1;
    }
    assert options[..i] == options;
    var env := s.env;
    if |env| == 0 {
      env := environ;
    }
    s.cmdEnv := env;
    FinalEnvironment(options, environ);
  }

  /** `RunWithContext`: runs `cmd` through `bash -c`. */
  method Run(cmd: string, options: seq<CommandOption>, environ: seq<string>,
             ev: Event, startErr: Option<Error>, waitErr: Option<Error>, killErr: Option<Error>,
             startedAt: int, endedAt: int)
    returns (r: Result)
    requires ev == Stop ==> ApplyAll(Unset, options, environ).stop != Nil
    requires startErr.Some? ==> ev == ProcessDone
    ensures fresh(r)
    ensures r.State() == Outcome(ev, startErr, waitErr, killErr, startedAt, endedAt)
  {
    var shellcmd := NewCommand("bash", ["-c", cmd], options, environ);
    shellcmd.RunWithContext(ev, startErr, waitErr, killErr, startedAt, endedAt);
    r := shellcmd.result;
  }
}
