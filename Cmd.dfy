/**
 * The command runner of yorha/cmd.py.
 *
 * Spawning the child process is outside the model: `execute` maps the argument
 * actually handed to `subprocess.run` (the command line, or its whitespace tokens
 * in shell mode) to what happened to the child. `run` turns that outcome into its
 * `(returncode, out, err)` tuple or into a `RunError`; `run_bg` reports nothing.
 */
module Cmd {
  import opened Wrappers
  import Strings
  import Errors

  /** A captured stream: decodable as UTF-8, or not. */
  datatype Decoded = Utf8(s: string) | Undecodable

  /** What `subprocess.run(..., check=True, timeout=...)` met. */
  datatype ProcOutcome =
    | Exited(code: int, stdout: Decoded, stderr: Decoded)
    | TimedOut
    | SpawnFailed(exception: string)   // e.g. FileNotFoundError: propagates as is

  /** What `subprocess.run` without `check` and without a timeout met. */
  datatype BgOutcome = Finished(code: int) | BgSpawnFailed(exception: string)

  /** The first argument of `subprocess.run`. */
  datatype Argv = CommandLine(line: string) | Tokens(tokens: seq<string>)

  /** An exception leaving `run` / `run_bg`: a `RunError`, or any other exception unchanged. */
  datatype RunFailure = Raised(error: Errors.YoRHaError) | Uncaught(exception: string)

  type RunResult = Result<(int, string, string), RunFailure>

  const TimeoutPrefix := "Raise TimeoutExpired : "
  const CalledProcessPrefix := "Raise CalledProcess Error : "
  const DecodePrefix := "Raise UnicodeDecodeError : "

  /**
   * `_shell(cmd)`: the whitespace-separated tokens of `cmd`, in order, none empty.
   * `cmd` is the tokens with a run of whitespace between each two and optional
   * whitespace before the first and after the last; ShellLayoutUnique shows that
   * no other tokens lay out `cmd` that way.
   */
  function Shell(cmd: string): (tokens: seq<string>)
    ensures forall i | 0 <= i < |tokens| :: tokens[i] != "" && Strings.NoSpace(tokens[i])
    ensures exists seps :: Strings.Separators(seps, |tokens|) && Strings.Interleave(tokens, seps) == cmd
    ensures Strings.Join(tokens, "") == Strings.RemoveSpaces(cmd)
  {
    Strings.SplitWhitespaceKeepsText(cmd);
    Strings.SplitWhitespaceLayout(cmd);
    Strings.SplitWhitespace(cmd)
  }

  /** Whitespace-free words laid out with whitespace runs are exactly what `_shell` gives back. */
  lemma ShellLayoutUnique(cmd: string, words: seq<string>, seps: seq<string>)
    requires forall i | 0 <= i < |words| :: words[i] != "" && Strings.NoSpace(words[i])
    requires Strings.Separators(seps, |words|) && Strings.Interleave(words, seps) == cmd
    ensures Shell(cmd) == words
  {
    Strings.SplitWhitespaceOfLayout(words, seps);
  }

  /** Tokens break at every whitespace run: `"  a \t b "` gives `["a", "b"]`, never `["ab"]`. */
  lemma ShellBreaksAtWhitespace()
    ensures Shell("  a \t b ") == ["a", "b"]
  {
    var seps := ["  ", " \t ", " "];
    assert Strings.Interleave(["a", "b"], seps) == "  a \t b " by {
      assert ["a", "b"][1..] == ["b"] && seps[1..] == [" \t ", " "];
      assert ["b"][1..] == [] && seps[1..][1..] == [" "];
    }
    ShellLayoutUnique("  a \t b ", ["a", "b"], seps);
  }

  /** `fix_cmd`: the token list in shell mode, the command line unchanged otherwise. */
  function FixCmd(cmd: string, shell: bool): (argv: Argv)
    ensures shell ==> argv == Tokens(Shell(cmd)) && Strings.Join(argv.tokens, "") == Strings.RemoveSpaces(cmd)
    ensures !shell ==> argv == CommandLine(cmd)
  {
    if shell then Tokens(Shell(cmd)) else CommandLine(cmd)
  }

  /** `'{0}: {1}\n{2}'.format(name, ''.join(cmd), traceback.format_exc())`. */
  function Report(name: string, cmd: string, trace: string): string {
    name + ": " + cmd + "\n" + trace
  }

  function Raise(cmd: string, prefix: string, name: string, trace: string): RunFailure {
    Raised(Errors.RunError(Errors.Text(cmd), Errors.Text(""), Errors.Text(prefix + Report(name, cmd, trace))))
  }

  /** A `RunError` for `cmd` whose captured output is empty. */
  predicate IsRunErrorFor(e: Errors.YoRHaError, cmd: string) {
    && Errors.OutKey in e.details && e.details[Errors.OutKey] == Errors.Text("")
    && Errors.CmdKey in e.details && e.details[Errors.CmdKey] == Errors.OrEmpty(Errors.Text(cmd))
    && e.details[Errors.TypeKey] == Errors.Text("RunError")
  }

  /** The message of a `RunError` that `run` raised. */
  predicate MessageStartsWith(f: RunFailure, prefix: string) {
    f.Raised? && Errors.Message(f.error).Text? && Strings.StartsWith(Errors.Message(f.error).s, prefix)
  }

  /**
   * `run(cmd, timeout=..., shell=shell)`. `trace` stands for the text of
   * `traceback.format_exc()` at the point of failure.
   */
  function Run(cmd: string, shell: bool, execute: Argv -> ProcOutcome, trace: string): (r: RunResult)
    // only a clean, decodable exit yields a tuple, and its return code is 0
    ensures var o := execute(FixCmd(cmd, shell));
      r.Success? <==> (o.Exited? && o.code == 0 && o.stdout.Utf8? && o.stderr.Utf8?)
    ensures var o := execute(FixCmd(cmd, shell));
      r.Success? ==> r.value == (0, o.stdout.s, o.stderr.s)
    // every RunError names the command and has an empty 'out'
    ensures r.Failure? && r.error.Raised? ==> IsRunErrorFor(r.error.error, cmd)
    ensures var o := execute(FixCmd(cmd, shell));
      o.TimedOut? ==> r.Failure? && MessageStartsWith(r.error, TimeoutPrefix)
    ensures var o := execute(FixCmd(cmd, shell));
      o.Exited? && o.code != 0 ==> r.Failure? && MessageStartsWith(r.error, CalledProcessPrefix)
    ensures var o := execute(FixCmd(cmd, shell));
      (o.Exited? && o.code == 0 && (o.stdout.Undecodable? || o.stderr.Undecodable?)) ==>
        r.Failure? && MessageStartsWith(r.error, DecodePrefix)
    ensures var o := execute(FixCmd(cmd, shell));
      o.SpawnFailed? ==> r == Failure(Uncaught(o.exception))
  {
    match execute(FixCmd(cmd, shell))
    case SpawnFailed(e) => Failure(Uncaught(e))
    case TimedOut => Failure(Raise(cmd, TimeoutPrefix, "TimeoutExpired", trace))
    case Exited(code, out, err) =>
      if code != 0 then Failure(Raise(cmd, CalledProcessPrefix, "CalledProcessError", trace))
      else if out.Undecodable? || err.Undecodable? then
        Failure(Raise(cmd, DecodePrefix, "UnicodeDecodeError", trace))
      else Success((code, out.s, err.s))
  }

  /**
   * `run_bg(cmd, shell=shell)`: without `check` a non-zero exit raises nothing, so the
   * `CalledProcessError` handler never fires and no `RunError` ever leaves it.
   */
  function RunBg(cmd: string, shell: bool, execute: Argv -> BgOutcome): (r: Result<(), RunFailure>)
    ensures r.Success? <==> execute(FixCmd(cmd, shell)).Finished?
    ensures r.Failure? ==> r.error.Uncaught?
  {
    match execute(FixCmd(cmd, shell))
    case Finished(_) => Success(())
    case BgSpawnFailed(e) => Failure(Uncaught(e))
  }
}
