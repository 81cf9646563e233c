/**
 * The Android Debug Bridge wrapper of yorha/device/adb.py.
 *
 * `AndroidBase` owns the device profile and the `WIFI` flag and turns every
 * request into one `adb ...` command line handed to the command runner of
 * yorha/cmd.py; `Android` builds the shell commands (`dumpsys`, `input`, `am`,
 * `getprop`, ...) on top of it. The runner's child processes are the functions
 * `execute` / `executeBg` of the Cmd module; `handed` records, in order, every
 * command line given to the runner, and whether it was run in the foreground.
 */
module Adb {
  import opened Wrappers
  import Strings
  import Cmd

  /** The attributes of a device profile class that the modelled commands read. */
  datatype Profile = Profile(serial: string, tmpPicture: string, ip: string, port: string, keycodeSpace: string)

  /**
   * A loaded profile class (`_<serial>` or `_0000000000000000`). Python caches
   * imported modules, so every `getattr(module, class_name)` for the same module
   * and class yields this same object, and `SERIAL` / `TMP_PICTURE` are assigned
   * on it, not on a copy.
   */
  class ProfileClass {
    var serial: string
    var tmpPicture: string
    const ip: string
    const port: string
    const keycodeSpace: string

    constructor (serial: string, tmpPicture: string, ip: string, port: string, keycodeSpace: string)
      ensures Snapshot() == Profile(serial, tmpPicture, ip, port, keycodeSpace)
    {
      this.serial := serial;
      this.tmpPicture := tmpPicture;
      this.ip := ip;
      this.port := port;
      this.keycodeSpace := keycodeSpace;
    }

    function Snapshot(): Profile
      reads this
    {
      Profile(serial, tmpPicture, ip, port, keycodeSpace)
    }
  }

  /** The directory searched first: its listing, or None when the path does not exist. */
  datatype HostDir = HostDir(path: string, listing: Option<seq<string>>)

  /** The exceptions that leave the modelled operations. */
  datatype AdbError =
    | AndroidError(message: string)
    | CommandFailed(failure: Cmd.RunFailure)   // raised by the runner and not caught here
    | PythonError(name: string)                // IndexError / ValueError from `rotate`

  /** A command line handed to the runner: `run` (foreground) or `run_bg` (background). */
  datatype Handed = Sync(line: string) | Background(line: string)

  function Hand(line: string, sync: bool): Handed {
    if sync then Sync(line) else Background(line)
  }

  const FallbackClass := "_0000000000000000"
  const FallbackFileSuffix := "_0000000000000000.py"
  const ExecFailedPrefix := "Android Execute Failed. : "
  const OrientationKey := "SurfaceOrientation"

  // ---------------------------------------------------------------------------
  // Profile selection

  /** `fdn.replace('.py', '')`. */
  function ModuleName(fdn: string): string {
    Strings.RemoveAll(fdn, ".py")
  }

  /** A file of the host directory that holds the profile of device `name`. */
  predicate IsProfileFile(fdn: string, name: string) {
    Strings.EndsWith(fdn, ".py") && Strings.Contains(fdn, name)
  }

  function ProfileFileFor(name: string): string -> bool {
    fdn => IsProfileFile(fdn, name)
  }

  /** A file of the profile directory that holds the fallback profile. */
  predicate IsFallbackFile(fdn: string) {
    Strings.EndsWith(fdn, FallbackFileSuffix)
  }

  /** The module named by the last entry of `listing` that `accept` admits. */
  function LastMatch(listing: seq<string>, accept: string -> bool): Option<string>
    decreases |listing|
  {
    if listing == [] then None
    else if accept(listing[|listing| - 1]) then Some(ModuleName(listing[|listing| - 1]))
    else LastMatch(listing[..|listing| - 1], accept)
  }

  predicate IsLastMatch(listing: seq<string>, accept: string -> bool, i: int) {
    0 <= i < |listing| && accept(listing[i]) && forall j | i < j < |listing| :: !accept(listing[j])
  }

  /** The loop keeps the last accepted entry: there is none exactly when no entry is accepted. */
  lemma {:induction false} LastMatchIsLast(listing: seq<string>, accept: string -> bool)
    ensures LastMatch(listing, accept).None? <==> forall i | 0 <= i < |listing| :: !accept(listing[i])
    ensures LastMatch(listing, accept).Some? ==>
              exists i :: IsLastMatch(listing, accept, i) && LastMatch(listing, accept).value == ModuleName(listing[i])
    decreases |listing|
  {
    if listing != [] {
      var n := |listing| - 1;
      var init := listing[..n];
      if accept(listing[n]) {
        assert IsLastMatch(listing, accept, n);
      } else {
        LastMatchIsLast(init, accept);
        if LastMatch(init, accept).Some? {
          var i :| IsLastMatch(init, accept, i) && LastMatch(init, accept).value == ModuleName(init[i]);
          assert IsLastMatch(listing, accept, i);
        } else {
          assert forall i | 0 <= i < |listing| :: !accept(listing[i]) by {
            forall i | 0 <= i < |listing| ensures !accept(listing[i]) {
              if i < n {
                assert listing[i] == init[i];
              }
            }
          }
        }
      }
    }
  }

  /** `for fdn in listing: if accept(fdn): prof = fdn.replace('.py', '')`. */
  method ScanListing(listing: seq<string>, accept: string -> bool) returns (prof: Option<string>)
    ensures prof == LastMatch(listing, accept)
  {
    prof := None;
    for i := 0 to |listing|
      invariant prof == LastMatch(listing[..i], accept)
    {
      if accept(listing[i]) {
        prof := Some(ModuleName(listing[i]));
      }
      assert listing[..i + 1][..i] == listing[..i];
    }
    assert listing[..|listing|] == listing;
  }

  /**
   * The module and class `_set_profile` imports for device `name`: the last profile
   * file of the host directory that names the device, with class `_<name>`; when
   * there is none, class `_0000000000000000` from the last fallback file of the
   * profile directory, or from the module `None` when there is no such file either.
   */
  function SelectModule(name: string, hostListing: seq<string>, profileDir: seq<string>): (key: (string, string))
    ensures (exists i :: IsLastMatch(hostListing, ProfileFileFor(name), i)) ==>
              && key.1 == "_" + name
              && exists i :: IsLastMatch(hostListing, ProfileFileFor(name), i) && key.0 == ModuleName(hostListing[i])
    ensures (forall i | 0 <= i < |hostListing| :: !IsProfileFile(hostListing[i], name)) ==>
              && key.1 == FallbackClass
              && ((exists i :: IsLastMatch(profileDir, IsFallbackFile, i) && key.0 == ModuleName(profileDir[i]))
                  || (key.0 == "None" && forall i | 0 <= i < |profileDir| :: !IsFallbackFile(profileDir[i])))
  {
    LastMatchIsLast(hostListing, ProfileFileFor(name));
    LastMatchIsLast(profileDir, IsFallbackFile);
    assert forall i | 0 <= i < |hostListing| :: ProfileFileFor(name)(hostListing[i]) == IsProfileFile(hostListing[i], name);
    match LastMatch(hostListing, ProfileFileFor(name))
    case Some(m) => (m, "_" + name)
    case None =>
      var fallback := LastMatch(profileDir, IsFallbackFile);
      (if fallback.Some? then fallback.value else "None", FallbackClass)
  }

  // ---------------------------------------------------------------------------
  // Command lines

  /** The device address after `-s`: the serial over USB, `IP:PORT` over Wi-Fi. */
  function TargetArg(p: Profile, wifi: bool): string {
    if wifi then p.ip + ":" + p.port else p.serial
  }

  /** `_target()`. */
  function Target(p: Profile, wifi: bool): (t: string)
    ensures !wifi ==> t == "-s " + p.serial
    ensures wifi ==> t == "-s " + p.ip + ":" + p.port
  {
    "-s " + TargetArg(p, wifi)
  }

  /** `_adb(command)` runs this line. */
  function AdbLine(command: string): string {
    "adb " + command
  }

  /** `adb(command)` runs this line. */
  function TargetedLine(p: Profile, wifi: bool, command: string): string {
    AdbLine(Target(p, wifi) + " " + command)
  }

  /** `shell(command)` runs this line. */
  function ShellLine(p: Profile, wifi: bool, command: string): string {
    TargetedLine(p, wifi, "shell " + command)
  }

  /**
   * Split at single spaces, a targeted command line is `adb`, `-s`, the device
   * address and then the words of the command, in order.
   */
  lemma TargetedLineWords(p: Profile, wifi: bool, words: seq<string>)
    requires |words| >= 1 && forall i | 0 <= i < |words| :: ' ' !in words[i]
    requires ' ' !in TargetArg(p, wifi)
    ensures Strings.Split(TargetedLine(p, wifi, Strings.Join(words, " ")), ' ') == ["adb", "-s", TargetArg(p, wifi)] + words
  {
    var head := ["adb", "-s", TargetArg(p, wifi)];
    TargetedLineJoin(p, wifi, words);
    SpaceFreeParts(head, words);
    Strings.JoinSplit(head + words, ' ');
  }

  lemma TargetedLineJoin(p: Profile, wifi: bool, words: seq<string>)
    requires |words| >= 1
    ensures TargetedLine(p, wifi, Strings.Join(words, " ")) == Strings.Join(["adb", "-s", TargetArg(p, wifi)] + words, " ")
  {
    var t := TargetArg(p, wifi);
    var rest := Strings.Join(words, " ");
    var head := ["adb", "-s", t];
    HeadJoin(t);
    Strings.JoinAppend(head, words, " ");
    var joined := Strings.Join(head + words, " ");
    assert joined == Strings.Join(head, " ") + " " + rest;
    assert Target(p, wifi) == "-s " + t;
    assert TargetedLine(p, wifi, rest) == "adb " + ("-s " + t + " " + rest);
    LiteralPrefix(t, rest);
  }

  lemma LiteralPrefix(t: string, rest: string)
    ensures "adb " + ("-s " + t + " " + rest) == "adb -s " + t + " " + rest
  {
    assert "adb " + ("-s " + t + " " + rest) == ("adb " + "-s ") + t + " " + rest;
    assert "adb " + "-s " == "adb -s ";
  }

  lemma HeadJoin(t: string)
    ensures Strings.Join(["adb", "-s", t], " ") == "adb -s " + t
  {
    var head := ["adb", "-s", t];
    assert head[1..] == ["-s", t];
    assert head[1..][1..] == [t];
    assert Strings.Join(head[1..], " ") == "-s" + " " + t;
    assert "adb" + " " + ("-s" + " " + t) == "adb -s " + t by {
      assert "adb" + " " + "-s" + " " == "adb -s ";
    }
  }

  lemma SpaceFreeParts(head: seq<string>, words: seq<string>)
    requires |head| == 3 && head[0] == "adb" && head[1] == "-s" && ' ' !in head[2]
    requires forall i | 0 <= i < |words| :: ' ' !in words[i]
    ensures forall i | 0 <= i < |head + words| :: ' ' !in (head + words)[i]
  {
    assert ' ' !in head[0] by { assert head[0] == ['a', 'd', 'b']; }
    assert ' ' !in head[1] by { assert head[1] == ['-', 's']; }
    forall i | 0 <= i < |head + words| ensures ' ' !in (head + words)[i] {
      if i >= 3 {
        assert (head + words)[i] == words[i - 3];
      } else {
        assert (head + words)[i] == head[i];
      }
    }
  }

  /** `tap(x, y)` over USB issues `adb -s SERIAL shell input tap x y`. */
  lemma TapLineWords(p: Profile, x: int, y: int)
    requires ' ' !in p.serial
    ensures var line := ShellLine(p, false, "input tap " + Strings.IntToString(x) + " " + Strings.IntToString(y));
      Strings.Split(line, ' ')
      == ["adb", "-s", p.serial, "shell", "input", "tap", Strings.IntToString(x), Strings.IntToString(y)]
  {
    var xs := Strings.IntToString(x);
    var ys := Strings.IntToString(y);
    DecimalHasNoSeparators(x);
    DecimalHasNoSeparators(y);
    var words := ["shell", "input", "tap", xs, ys];
    assert Strings.Join(words[3..], " ") == xs + " " + ys;
    assert Strings.Join(words[2..], " ") == "tap" + " " + (xs + " " + ys);
    assert Strings.Join(words[1..], " ") == "input" + " " + ("tap" + " " + (xs + " " + ys));
    assert Strings.Join(words, " ") == "shell" + " " + ("input" + " " + ("tap" + " " + (xs + " " + ys)));
    TapLiterals(xs + " " + ys);
    assert "input tap " + xs + " " + ys == "input tap " + (xs + " " + ys);
    assert ShellLine(p, false, "input tap " + xs + " " + ys) == TargetedLine(p, false, Strings.Join(words, " "));
    assert ["adb", "-s", p.serial] + words == ["adb", "-s", p.serial, "shell", "input", "tap", xs, ys];
    TargetedLineWords(p, false, words);
  }

  lemma TapLiterals(xy: string)
    ensures "shell" + " " + ("input" + " " + ("tap" + " " + xy)) == "shell " + ("input tap " + xy)
  {
    assert "shell" + " " + ("input" + " " + ("tap" + " " + xy)) == ("shell" + " ") + (("input" + " " + "tap" + " ") + xy);
    assert "shell" + " " == "shell ";
    assert "input" + " " + "tap" + " " == "input tap ";
  }

  /** `'%d' % i` holds neither a line break, nor a colon, nor a space. */
  lemma DecimalHasNoSeparators(i: int)
    ensures var s := Strings.IntToString(i); '\n' !in s && ':' !in s && ' ' !in s
  {
    var s := Strings.IntToString(i);
    var d := Strings.NatToString(if i < 0 then -i else i);
    assert forall k | 0 <= k < |d| :: Strings.IsDigit(d[k]);
    if i < 0 {
      assert s == "-" + d;
      assert forall k | 1 <= k < |s| :: s[k] == d[k - 1];
    }
  }

  // ---------------------------------------------------------------------------
  // Results

  /**
   * `__exec` given what `run` produced: the standard output with every '\r'
   * removed on exit code 0, an `AndroidError` carrying the standard error otherwise;
   * an exception from `run` itself (line 95 lies outside the `try`) propagates as is.
   */
  function ExecResult(run: Cmd.RunResult): (r: Result<string, AdbError>)
    ensures run.Success? && run.value.0 == 0 ==> r == Success(Strings.Without(run.value.1, '\r'))
    ensures run.Success? && run.value.0 != 0 ==>
              r == Failure(AndroidError(ExecFailedPrefix + Strings.Without(run.value.2, '\r')))
    ensures run.Failure? ==> r == Failure(CommandFailed(run.error))
    ensures r.Success? ==> '\r' !in r.value
  {
    match run
    case Failure(f) => Failure(CommandFailed(f))
    case Success((code, out, err)) =>
      Strings.RemoveCharIsWithout(out, '\r');
      Strings.RemoveCharIsWithout(err, '\r');
      if code == 0 then Success(Strings.RemoveAll(out, "\r"))
      else Failure(AndroidError(ExecFailedPrefix + Strings.RemoveAll(err, "\r")))
  }

  /** `stop`'s `app.split('/')[0]`: the part of `app` before its first '/'. */
  function PackageOf(app: string): (pkg: string)
    ensures '/' !in pkg
    ensures Strings.StartsWith(app, pkg)
    ensures |pkg| < |app| ==> app[|pkg|] == '/'
  {
    var parts := Strings.Split(app, '/');
    Strings.SplitJoin(app, '/');
    assert |parts| > 1 ==> app == parts[0] + "/" + Strings.Join(parts[1..], "/");
    parts[0]
  }

  /** The index of the first line containing `needle`. */
  function FirstContaining(lines: seq<string>, needle: string): (r: Option<nat>)
    ensures r.None? <==> forall j | 0 <= j < |lines| :: !Strings.Contains(lines[j], needle)
    ensures r.Some? ==> r.value < |lines| && Strings.Contains(lines[r.value], needle)
    ensures r.Some? ==> forall j | 0 <= j < r.value :: !Strings.Contains(lines[j], needle)
    decreases |lines|
  {
    if lines == [] then None
    else if Strings.Contains(lines[0], needle) then Some(0)
    else
      match FirstContaining(lines[1..], needle)
      case None => None
      case Some(k) => Some(k + 1)
  }

  /**
   * `rotate`'s parse of the `dumpsys input` output: `int` of the text after the first
   * ':' of the first line mentioning `SurfaceOrientation`, or None without such a line.
   */
  function ParseRotation(output: string): (r: Result<Option<int>, AdbError>)
    ensures r == Success(None) ==>
              forall j | 0 <= j < |Strings.Split(output, '\n')| :: !Strings.Contains(Strings.Split(output, '\n')[j], OrientationKey)
    ensures (forall j | 0 <= j < |Strings.Split(output, '\n')| :: !Strings.Contains(Strings.Split(output, '\n')[j], OrientationKey))
            ==> r == Success(None)
    ensures r.Failure? ==> r.error == PythonError("IndexError") || r.error == PythonError("ValueError")
  {
    var lines := Strings.Split(output, '\n');
    var first := FirstContaining(lines, OrientationKey);
    if first.None? then Success(None)
    else
      assert Strings.Contains(lines[first.value], OrientationKey);
      var fields := Strings.Split(lines[first.value], ':');
      if |fields| < 2 then Failure(PythonError("IndexError"))
      else
        match Strings.ParseInt(fields[1])
        case None => Failure(PythonError("ValueError"))
        case Some(n) => Success(Some(n))
  }

  /** A `SurfaceOrientation: n` line, after lines that do not mention it, reads back as n. */
  lemma RotationRoundTrip(before: seq<string>, lead: string, n: int, after: seq<string>)
    requires forall i | 0 <= i < |before| :: '\n' !in before[i] && !Strings.Contains(before[i], OrientationKey)
    requires forall i | 0 <= i < |after| :: '\n' !in after[i]
    requires '\n' !in lead && ':' !in lead
    ensures ParseRotation(Strings.Join(before + [lead + OrientationKey + ": " + Strings.IntToString(n)] + after, "\n"))
            == Success(Some(n))
  {
    var line := lead + OrientationKey + ": " + Strings.IntToString(n);
    OrientationLine(lead, n);
    var lines := before + [line] + after;
    LinesWithoutBreaks(before, line, after);
    Strings.JoinSplit(lines, '\n');
    FirstOrientationLine(before, line, after);
  }

  /** The orientation line mentions the key and its second ':'-field reads back as n. */
  lemma OrientationLine(lead: string, n: int)
    requires '\n' !in lead && ':' !in lead
    ensures var line := lead + OrientationKey + ": " + Strings.IntToString(n);
      && '\n' !in line
      && Strings.Contains(line, OrientationKey)
      && |Strings.Split(line, ':')| >= 2
      && Strings.ParseInt(Strings.Split(line, ':')[1]) == Some(n)
  {
    var digits := Strings.IntToString(n);
    DecimalHasNoSeparators(n);
    var name := lead + OrientationKey;
    var value := " " + digits;
    var line := name + ": " + digits;
    assert line == name + ":" + value;
    assert ':' !in name && '\n' !in name;
    assert line[|lead|..|lead| + |OrientationKey|] == OrientationKey;
    Strings.ContainsAt(line, OrientationKey, |lead|);
    assert Strings.Join([name, value], ":") == line;
    Strings.JoinSplit([name, value], ':');
    Strings.ParseIntRoundTrip(" ", n);
  }

  lemma LinesWithoutBreaks(before: seq<string>, line: string, after: seq<string>)
    requires forall i | 0 <= i < |before| :: '\n' !in before[i]
    requires forall i | 0 <= i < |after| :: '\n' !in after[i]
    requires '\n' !in line
    ensures forall i | 0 <= i < |before + [line] + after| :: '\n' !in (before + [line] + after)[i]
  {
    var lines := before + [line] + after;
    forall i | 0 <= i < |lines| ensures '\n' !in lines[i] {
      if i < |before| {
        assert lines[i] == before[i];
      } else if i > |before| {
        assert lines[i] == after[i - |before| - 1];
      }
    }
  }

  lemma FirstOrientationLine(before: seq<string>, line: string, after: seq<string>)
    requires forall i | 0 <= i < |before| :: !Strings.Contains(before[i], OrientationKey)
    requires Strings.Contains(line, OrientationKey)
    ensures FirstContaining(before + [line] + after, OrientationKey) == Some(|before|)
  {
    var lines := before + [line] + after;
    assert lines[|before|] == line;
    assert forall j | 0 <= j < |before| :: lines[j] == before[j];
  }

  /** The two commands one pass of `text`'s loop issues for `word`. */
  function WordCommands(p: Profile, wifi: bool, word: string): seq<Handed> {
    [Sync(ShellLine(p, wifi, "input text " + word)),
     Sync(ShellLine(p, wifi, "input keyevent " + p.keycodeSpace + " "))]
  }

  /** The commands `text(s)` issues: per ' '-separated word, `input text w` then a space keyevent. */
  function TextLines(p: Profile, wifi: bool, words: seq<string>): (lines: seq<Handed>)
    ensures |lines| == 2 * |words|
    decreases |words|
  {
    if words == [] then []
    else
      TextLines(p, wifi, words[..|words| - 1]) + WordCommands(p, wifi, words[|words| - 1])
  }

  lemma {:induction false} TextLinesAt(p: Profile, wifi: bool, words: seq<string>, i: nat)
    requires i < |words|
    ensures TextLines(p, wifi, words)[2 * i] == Sync(ShellLine(p, wifi, "input text " + words[i]))
    ensures TextLines(p, wifi, words)[2 * i + 1] == Sync(ShellLine(p, wifi, "input keyevent " + p.keycodeSpace + " "))
    decreases |words|
  {
    if i < |words| - 1 {
      TextLinesAt(p, wifi, words[..|words| - 1], i);
    }
  }

  /**
   * The words `text(s)` types, joined with single spaces, give back `s`; each is
   * followed by a space keyevent, the last one included.
   */
  lemma TextTypesWholeString(p: Profile, wifi: bool, s: string)
    ensures var words := Strings.Split(s, ' ');
      && Strings.Join(words, " ") == s
      && |TextLines(p, wifi, words)| == 2 * |words|
      && forall i | 0 <= i < |words| ::
           && TextLines(p, wifi, words)[2 * i] == Sync(ShellLine(p, wifi, "input text " + words[i]))
           && TextLines(p, wifi, words)[2 * i + 1] == Sync(ShellLine(p, wifi, "input keyevent " + p.keycodeSpace + " "))
  {
    var words := Strings.Split(s, ' ');
    Strings.SplitJoin(s, ' ');
    forall i | 0 <= i < |words|
      ensures TextLines(p, wifi, words)[2 * i] == Sync(ShellLine(p, wifi, "input text " + words[i]))
      ensures TextLines(p, wifi, words)[2 * i + 1] == Sync(ShellLine(p, wifi, "input keyevent " + p.keycodeSpace + " "))
    {
      TextLinesAt(p, wifi, words, i);
    }
  }

  // ---------------------------------------------------------------------------
  // AndroidBase

  class AndroidBase {
    var profile: ProfileClass
    var wifi: bool
    var handed: seq<Handed>
    const execute: Cmd.Argv -> Cmd.ProcOutcome
    const executeBg: Cmd.Argv -> Cmd.BgOutcome
    const trace: string

    constructor (profile: ProfileClass, execute: Cmd.Argv -> Cmd.ProcOutcome,
                 executeBg: Cmd.Argv -> Cmd.BgOutcome, trace: string)
      ensures this.profile == profile && !wifi && handed == []
      ensures this.execute == execute && this.executeBg == executeBg && this.trace == trace
    {
      this.profile := profile;
      this.wifi := false;
      this.handed := [];
      this.execute := execute;
      this.executeBg := executeBg;
      this.trace := trace;
    }

    /**
     * What `_adb` returns or raises for `line`: the output of a clean exit when run in
     * the foreground, None in the background. The `AndroidError` of `__exec` is never
     * reached, because `run` (with `check=True`) already turned a non-zero exit into
     * a `RunError`.
     */
    function Dispatch(line: string, sync: bool): (r: Result<Option<string>, AdbError>)
      ensures sync ==>
                var o := execute(Cmd.CommandLine(line));
                && (r.Success? <==> o.Exited? && o.code == 0 && o.stdout.Utf8? && o.stderr.Utf8?)
                && (r.Success? ==> r.value == Some(Strings.Without(o.stdout.s, '\r')))
                && (r.Failure? ==> r.error.CommandFailed?)
      ensures !sync ==>
                && (r.Success? <==> executeBg(Cmd.CommandLine(line)).Finished?)
                && (r.Success? ==> r.value == None)
                && (r.Failure? ==> r.error.CommandFailed? && r.error.failure.Uncaught?)
    {
      if sync then
        match ExecResult(Cmd.Run(line, false, execute, trace))
        case Success(out) => Success(Some(out))
        case Failure(e) => Failure(e)
      else
        match Cmd.RunBg(line, false, executeBg)
        case Success(_) => Success(None)
        case Failure(f) => Failure(CommandFailed(f))
    }

    /**
     * `AndroidBase(name, host)`: selects the profile class, then assigns `SERIAL` and
     * `TMP_PICTURE` on that class object itself. `loaded` holds the classes the
     * import system can find, by module and class name; `importError` gives the text
     * of the exception raised for one it cannot.
     */
    static method Create(name: string, host: HostDir, profileDir: seq<string>,
                         loaded: map<(string, string), ProfileClass>, importError: (string, string) -> string,
                         execute: Cmd.Argv -> Cmd.ProcOutcome, executeBg: Cmd.Argv -> Cmd.BgOutcome, trace: string)
      returns (r: Result<AndroidBase, AdbError>)
      modifies loaded.Values
      ensures host.listing.None? ==>
                r == Failure(AndroidError("Not Found. : " + host.path)) && unchanged(loaded.Values)
      ensures host.listing.Some? ==>
                var key := SelectModule(name, host.listing.value, profileDir);
                && (key !in loaded ==> r == Failure(AndroidError(importError(key.0, key.1))) && unchanged(loaded.Values))
                && (key in loaded ==>
                      && r.Success? && fresh(r.value)
                      && r.value.profile == loaded[key]
                      && loaded[key].serial == name && loaded[key].tmpPicture == name + "_TMP.png"
                      && unchanged(loaded.Values - {loaded[key]})
                      && !r.value.wifi && r.value.handed == []
                      && r.value.execute == execute && r.value.executeBg == executeBg && r.value.trace == trace)
    {
      if host.listing.None? {
        return Failure(AndroidError("Not Found. : " + host.path));
      }
      var className := "_" + name;
      var prof := ScanListing(host.listing.value, ProfileFileFor(name));
      if prof.None? {
        className := FallbackClass;
        prof := ScanListing(profileDir, IsFallbackFile);
      }
      var moduleName := if prof.Some? then prof.value else "None";
      var key := (moduleName, className);
      if key !in loaded {
        return Failure(AndroidError(importError(moduleName, className)));
      }
      var cls := loaded[key];
      cls.serial := name;
      cls.tmpPicture := name + "_TMP.png";
      var base := new AndroidBase(cls, execute, executeBg, trace);
      return Success(base);
    }

    /**
     * The same selection, with the serial and picture name written to a copy of the
     * class's attributes, so that no other device's profile changes.
     */
    static method CreateOwnProfile(name: string, host: HostDir, profileDir: seq<string>,
                                   loaded: map<(string, string), ProfileClass>, importError: (string, string) -> string,
                                   execute: Cmd.Argv -> Cmd.ProcOutcome, executeBg: Cmd.Argv -> Cmd.BgOutcome, trace: string)
      returns (r: Result<AndroidBase, AdbError>)
      ensures host.listing.None? ==> r == Failure(AndroidError("Not Found. : " + host.path))
      ensures host.listing.Some? ==>
                var key := SelectModule(name, host.listing.value, profileDir);
                && (key !in loaded ==> r == Failure(AndroidError(importError(key.0, key.1))))
                && (key in loaded ==>
                      && r.Success? && fresh(r.value) && fresh(r.value.profile)
                      && r.value.profile.Snapshot()
                         == loaded[key].Snapshot().(serial := name, tmpPicture := name + "_TMP.png")
                      && !r.value.wifi && r.value.handed == []
                      && r.value.execute == execute && r.value.executeBg == executeBg && r.value.trace == trace)
    {
      if host.listing.None? {
        return Failure(AndroidError("Not Found. : " + host.path));
      }
      var className := "_" + name;
      var prof := ScanListing(host.listing.value, ProfileFileFor(name));
      if prof.None? {
        className := FallbackClass;
        prof := ScanListing(profileDir, IsFallbackFile);
      }
      var moduleName := if prof.Some? then prof.value else "None";
      var key := (moduleName, className);
      if key !in loaded {
        return Failure(AndroidError(importError(moduleName, className)));
      }
      var cls := loaded[key];
      var own := new ProfileClass(name, name + "_TMP.png", cls.ip, cls.port, cls.keycodeSpace);
      var base := new AndroidBase(own, execute, executeBg, trace);
      return Success(base);
    }

    /** `_adb(command, sync)`: runs `adb command`, in the foreground or the background. */
    method RawAdb(command: string, sync: bool) returns (r: Result<Option<string>, AdbError>)
      modifies this`handed
      ensures handed == old(handed) + [Hand(AdbLine(command), sync)]
      ensures r == Dispatch(AdbLine(command), sync)
    {
      var line := AdbLine(command);
      handed := handed + [Hand(line, sync)];
      if sync {
        var out := ExecResult(Cmd.Run(line, false, execute, trace));
        r := match out
          case Success(s) => Success(Some(s))
          case Failure(e) => Failure(e);
      } else {
        var bg := Cmd.RunBg(line, false, executeBg);
        r := match bg
          case Success(_) => Success(None)
          case Failure(f) => Failure(CommandFailed(f));
      }
    }

    /** `adb(command, sync)`: the command addressed to this device with `-s`. */
    method Adb(command: string, sync: bool) returns (r: Result<Option<string>, AdbError>)
      modifies this`handed
      ensures handed == old(handed) + [Hand(TargetedLine(profile.Snapshot(), wifi, command), sync)]
      ensures r == Dispatch(TargetedLine(profile.Snapshot(), wifi, command), sync)
    {
      r := RawAdb(Target(profile.Snapshot(), wifi) + " " + command, sync);
    }

    /** `push(src, dst)`. */
    method Push(src: string, dst: string) returns (r: Result<Option<string>, AdbError>)
      modifies this`handed
      ensures handed == old(handed) + [Sync(TargetedLine(profile.Snapshot(), wifi, "push " + src + " " + dst))]
      ensures r == Dispatch(TargetedLine(profile.Snapshot(), wifi, "push " + src + " " + dst), true)
    {
      r := Adb("push " + src + " " + dst, true);
    }

    /** `pull(src, dst)`. */
    method Pull(src: string, dst: string) returns (r: Result<Option<string>, AdbError>)
      modifies this`handed
      ensures handed == old(handed) + [Sync(TargetedLine(profile.Snapshot(), wifi, "pull " + src + " " + dst))]
      ensures r == Dispatch(TargetedLine(profile.Snapshot(), wifi, "pull " + src + " " + dst), true)
    {
      r := Adb("pull " + src + " " + dst, true);
    }

    /** `shell(command, sync)`. */
    method Shell(command: string, sync: bool) returns (r: Result<Option<string>, AdbError>)
      modifies this`handed
      ensures handed == old(handed) + [Hand(ShellLine(profile.Snapshot(), wifi, command), sync)]
      ensures r == Dispatch(ShellLine(profile.Snapshot(), wifi, command), sync)
    {
      r := Adb("shell " + command, sync);
    }

    /** `connect()`: `adb connect IP:PORT` over Wi-Fi, nothing over USB. */
    method Connect() returns (r: Result<Option<string>, AdbError>)
      modifies this`handed
      ensures var line := AdbLine("connect " + profile.ip + ":" + profile.port);
        if wifi then handed == old(handed) + [Sync(line)] && r == Dispatch(line, true)
        else handed == old(handed) && r == Success(None)
    {
      if wifi {
        r := RawAdb("connect " + profile.ip + ":" + profile.port, true);
      } else {
        r := Success(None);
      }
    }

    /** `disconnect()`: `adb disconnect IP:PORT` over Wi-Fi, nothing over USB. */
    method Disconnect() returns (r: Result<Option<string>, AdbError>)
      modifies this`handed
      ensures var line := AdbLine("disconnect " + profile.ip + ":" + profile.port);
        if wifi then handed == old(handed) + [Sync(line)] && r == Dispatch(line, true)
        else handed == old(handed) && r == Success(None)
    {
      if wifi {
        r := RawAdb("disconnect " + profile.ip + ":" + profile.port, true);
      } else {
        r := Success(None);
      }
    }

    /**
     * `usb()`: over Wi-Fi, disconnect and leave Wi-Fi mode (an exception from the
     * disconnect leaves the flag set); then `adb -s SERIAL usb`.
     */
    method Usb() returns (r: Result<Option<string>, AdbError>)
      modifies this`handed, this`wifi
      ensures var disconnect := AdbLine("disconnect " + profile.ip + ":" + profile.port);
        var usb := TargetedLine(profile.Snapshot(), false, "usb");
        if old(wifi) && Dispatch(disconnect, true).Failure? then
          wifi && handed == old(handed) + [Sync(disconnect)] && r == Dispatch(disconnect, true)
        else
          && !wifi
          && handed == old(handed) + (if old(wifi) then [Sync(disconnect)] else []) + [Sync(usb)]
          && r == Dispatch(usb, true)
    {
      if wifi {
        var d := Disconnect();
        if d.Failure? {
          return d;
        }
        wifi := false;
      }
      r := Adb("usb", true);
    }

    /**
     * `tcpip()`: enters Wi-Fi mode and runs the untargeted `adb tcpip PORT`. The
     * disconnect it calls first runs only while `WIFI` is false, so it does nothing.
     */
    method Tcpip() returns (r: Result<Option<string>, AdbError>)
      modifies this`handed, this`wifi
      ensures wifi
      ensures handed == old(handed) + [Sync(AdbLine("tcpip " + profile.port))]
      ensures r == Dispatch(AdbLine("tcpip " + profile.port), true)
    {
      if !wifi {
        var _ := Disconnect();
        wifi := true;
      }
      r := RawAdb("tcpip " + profile.port, true);
    }
  }

  // ---------------------------------------------------------------------------
  // Android

  /** The command builders of `Android`, each a shell command on the device of `base`. */
  class Android {
    const base: AndroidBase

    constructor (base: AndroidBase)
      ensures this.base == base
    {
      this.base := base;
    }

    /** `shell(command, sync)`. */
    method Shell(command: string, sync: bool) returns (r: Result<Option<string>, AdbError>)
      modifies base`handed
      ensures base.handed == old(base.handed) + [Hand(ShellLine(base.profile.Snapshot(), base.wifi, command), sync)]
      ensures r == base.Dispatch(ShellLine(base.profile.Snapshot(), base.wifi, command), sync)
    {
      r := base.Shell(command, sync);
    }

    /** `dumpsys(category)`. */
    method Dumpsys(category: string) returns (r: Result<Option<string>, AdbError>)
      modifies base`handed
      ensures base.handed == old(base.handed) + [Sync(ShellLine(base.profile.Snapshot(), base.wifi, "dumpsys " + category))]
      ensures r == base.Dispatch(ShellLine(base.profile.Snapshot(), base.wifi, "dumpsys " + category), true)
    {
      r := Shell("dumpsys " + category, true);
    }

    /** `input(command, sync)`. */
    method Input(command: string, sync: bool) returns (r: Result<Option<string>, AdbError>)
      modifies base`handed
      ensures base.handed == old(base.handed) + [Hand(ShellLine(base.profile.Snapshot(), base.wifi, "input " + command), sync)]
      ensures r == base.Dispatch(ShellLine(base.profile.Snapshot(), base.wifi, "input " + command), sync)
    {
      r := base.Shell("input " + command, sync);
    }

    /** `am(command, sync)`. */
    method Am(command: string, sync: bool) returns (r: Result<Option<string>, AdbError>)
      modifies base`handed
      ensures base.handed == old(base.handed) + [Hand(ShellLine(base.profile.Snapshot(), base.wifi, "am " + command), sync)]
      ensures r == base.Dispatch(ShellLine(base.profile.Snapshot(), base.wifi, "am " + command), sync)
    {
      r := base.Shell("am " + command, sync);
    }

    /** `tap(x, y)`: see TapLineWords for the words the command line splits into. */
    method Tap(x: int, y: int) returns (r: Result<Option<string>, AdbError>)
      modifies base`handed
      ensures var line := ShellLine(base.profile.Snapshot(), base.wifi,
                                    "input tap " + Strings.IntToString(x) + " " + Strings.IntToString(y));
        base.handed == old(base.handed) + [Sync(line)] && r == base.Dispatch(line, true)
    {
      r := Input("tap " + Strings.IntToString(x) + " " + Strings.IntToString(y), true);
      assert "input " + ("tap " + Strings.IntToString(x) + " " + Strings.IntToString(y))
          == "input tap " + Strings.IntToString(x) + " " + Strings.IntToString(y);
    }

    /** `keyevent(code)`: note the space after the code. */
    method Keyevent(code: string) returns (r: Result<Option<string>, AdbError>)
      modifies base`handed
      ensures var line := ShellLine(base.profile.Snapshot(), base.wifi, "input keyevent " + code + " ");
        base.handed == old(base.handed) + [Sync(line)] && r == base.Dispatch(line, true)
    {
      r := Input("keyevent " + code + " ", true);
      assert "input " + ("keyevent " + code + " ") == "input keyevent " + code + " ";
    }

    /** `_text(word)`: the output is dropped, an exception still propagates. */
    method TypeWord(word: string) returns (r: Result<(), AdbError>)
      modifies base`handed
      ensures var line := ShellLine(base.profile.Snapshot(), base.wifi, "input text " + word);
        && base.handed == old(base.handed) + [Sync(line)]
        && (r.Success? <==> base.Dispatch(line, true).Success?)
        && (r.Failure? ==> r.error == base.Dispatch(line, true).error)
    {
      var out := Input("text " + word, true);
      assert "input " + ("text " + word) == "input text " + word;
      r := if out.Success? then Success(()) else Failure(out.error);
    }

    /**
     * `text(s)`: for each ' '-separated word, `input text word` and then the space
     * keyevent; the first exception stops the loop, after the commands issued so far.
     */
    method Text(s: string) returns (r: Result<(), AdbError>)
      modifies base`handed
      ensures var all := old(base.handed) + TextLines(base.profile.Snapshot(), base.wifi, Strings.Split(s, ' '));
        && (r.Success? ==> base.handed == all)
        && (r.Failure? ==> old(base.handed) < base.handed <= all)
    {
      var words := Strings.Split(s, ' ');
      var i := 0;
      while i < |words|
        invariant 0 <= i <= |words|
        invariant base.handed == old(base.handed) + TextLines(base.profile.Snapshot(), base.wifi, words[..i])
      {
        var t := TextPass(words, i, old(base.handed));
        if t.Failure? {
          return t;
        }
        i := i + 1;
      }
      assert words[..|words|] == words;
      r := Success(());
    }

    /** Pass `i` of `text`'s loop, given the commands of the passes before it. */
    method TextPass(words: seq<string>, i: nat, ghost h0: seq<Handed>) returns (r: Result<(), AdbError>)
      requires i < |words|
      requires base.handed == h0 + TextLines(base.profile.Snapshot(), base.wifi, words[..i])
      modifies base`handed
      ensures var p := base.profile.Snapshot();
        && (r.Success? ==> base.handed == h0 + TextLines(p, base.wifi, words[..i + 1]))
        && (r.Failure? ==> h0 < base.handed <= h0 + TextLines(p, base.wifi, words))
    {
      ghost var p := base.profile.Snapshot();
      r := TypeWordAndSpace(words[i]);
      if r.Failure? {
        StoppedText(h0, p, base.wifi, words, i, base.handed);
      } else {
        TextLinesStep(p, base.wifi, words, i);
      }
    }

    /** One pass of `text`'s loop: the word, then the space keyevent. */
    method TypeWordAndSpace(word: string) returns (r: Result<(), AdbError>)
      modifies base`handed
      ensures var p := base.profile.Snapshot();
        var both := WordCommands(p, base.wifi, word);
        && (r.Success? ==> base.handed == old(base.handed) + both)
        && (r.Failure? ==> old(base.handed) < base.handed <= old(base.handed) + both)
    {
      r := TypeWord(word);
      if r.Success? {
        var k := Keyevent(base.profile.keycodeSpace);
        if k.Failure? {
          r := Failure(k.error);
        }
      }
    }

    /** `stop(app)`: force-stops the package named before the first '/' of `app`. */
    method Stop(app: string) returns (r: Result<Option<string>, AdbError>)
      modifies base`handed
      ensures var line := ShellLine(base.profile.Snapshot(), base.wifi, "am force-stop " + PackageOf(app) + " ");
        base.handed == old(base.handed) + [Sync(line)] && r == base.Dispatch(line, true)
    {
      var command := "force-stop " + PackageOf(app) + " ";
      assert "am " + command == "am force-stop " + PackageOf(app) + " ";
      r := Am(command, true);
    }

    /** `getprop(prop)`. */
    method Getprop(prop: string) returns (r: Result<Option<string>, AdbError>)
      modifies base`handed
      ensures var line := ShellLine(base.profile.Snapshot(), base.wifi, "getprop " + prop);
        base.handed == old(base.handed) + [Sync(line)] && r == base.Dispatch(line, true)
    {
      r := base.Shell("getprop " + prop, true);
    }

    /** `setprop(prop, value)`. */
    method Setprop(prop: string, value: string) returns (r: Result<Option<string>, AdbError>)
      modifies base`handed
      ensures var line := ShellLine(base.profile.Snapshot(), base.wifi, "setprop " + prop + " " + value);
        base.handed == old(base.handed) + [Sync(line)] && r == base.Dispatch(line, true)
    {
      r := base.Shell("setprop " + prop + " " + value, true);
    }

    /** `forward(command)`: an `adb forward` addressed to the device (not a shell command). */
    method Forward(command: string) returns (r: Result<Option<string>, AdbError>)
      modifies base`handed
      ensures var line := TargetedLine(base.profile.Snapshot(), base.wifi, "forward " + command);
        base.handed == old(base.handed) + [Sync(line)] && r == base.Dispatch(line, true)
    {
      r := base.Adb("forward " + command, true);
    }

    /**
     * `rotate()`: the orientation parsed from `dumpsys input`; an exception from the
     * command, or from the parse, propagates.
     */
    method Rotate() returns (r: Result<Option<int>, AdbError>)
      modifies base`handed
      ensures var line := ShellLine(base.profile.Snapshot(), base.wifi, "dumpsys input");
        && base.handed == old(base.handed) + [Sync(line)]
        && (base.Dispatch(line, true).Failure? ==> r == Failure(base.Dispatch(line, true).error))
        && (base.Dispatch(line, true).Success? ==> r == ParseRotation(base.Dispatch(line, true).value.value))
    {
      var out := Dumpsys("input");
      assert "dumpsys " + "input" == "dumpsys input";
      if out.Failure? {
        return Failure(out.error);
      }
      if out.value.None? {
        return Success(None);
      }
      r := ParseRotation(out.value.value);
    }
  }

  lemma TextLinesStep(p: Profile, wifi: bool, words: seq<string>, i: nat)
    requires i < |words|
    ensures TextLines(p, wifi, words[..i + 1]) == TextLines(p, wifi, words[..i]) + WordCommands(p, wifi, words[i])
  {
    assert words[..i + 1][..i] == words[..i];
  }

  /**
   * An exception in pass `i` of `text`'s loop leaves the record grown by a non-empty
   * part of the commands the whole loop would issue.
   */
  lemma StoppedText(h0: seq<Handed>, p: Profile, wifi: bool, words: seq<string>, i: nat, h: seq<Handed>)
    requires i < |words|
    requires h0 + TextLines(p, wifi, words[..i]) < h <= h0 + TextLines(p, wifi, words[..i]) + WordCommands(p, wifi, words[i])
    ensures h0 < h <= h0 + TextLines(p, wifi, words)
  {
    TextLinesStep(p, wifi, words, i);
    PrefixOfTextLines(p, wifi, words, i);
    var done := TextLines(p, wifi, words[..i]);
    var full := TextLines(p, wifi, words);
    assert done + WordCommands(p, wifi, words[i]) <= full;
    assert h0 + done + WordCommands(p, wifi, words[i]) <= h0 + full;
  }

  /** The commands `text` issued before an exception are a proper prefix of the full sequence. */
  lemma PrefixOfTextLines(p: Profile, wifi: bool, words: seq<string>, i: nat)
    requires i < |words|
    ensures TextLines(p, wifi, words[..i]) < TextLines(p, wifi, words[..i + 1]) <= TextLines(p, wifi, words)
  {
    TextLinesPrefix(p, wifi, words, i + 1);
    assert words[..i + 1][..i] == words[..i];
  }

  lemma {:induction false} TextLinesPrefix(p: Profile, wifi: bool, words: seq<string>, n: nat)
    requires n <= |words|
    ensures TextLines(p, wifi, words[..n]) <= TextLines(p, wifi, words)
    decreases |words| - n
  {
    if n < |words| {
      TextLinesPrefix(p, wifi, words, n + 1);
      assert words[..n + 1][..n] == words[..n];
    } else {
      assert words[..n] == words;
    }
  }

  /**
   * Two devices without a profile of their own both get the one cached
   * `_0000000000000000` class: after the second is created, the first one's
   * commands are addressed to the second device's serial.
   */
  method SharedFallbackProfile(nameA: string, nameB: string, hostPath: string, profileDir: seq<string>,
                               loaded: map<(string, string), ProfileClass>, importError: (string, string) -> string,
                               execute: Cmd.Argv -> Cmd.ProcOutcome, executeBg: Cmd.Argv -> Cmd.BgOutcome, trace: string)
    returns (a: AndroidBase, b: AndroidBase)
    requires nameA != nameB
    requires SelectModule(nameA, [], profileDir) in loaded
    modifies loaded.Values
    ensures a.profile == b.profile
    ensures Target(a.profile.Snapshot(), a.wifi) == "-s " + nameB
  {
    var host := HostDir(hostPath, Some([]));
    var ra := AndroidBase.Create(nameA, host, profileDir, loaded, importError, execute, executeBg, trace);
    a := ra.value;
    var rb := AndroidBase.Create(nameB, host, profileDir, loaded, importError, execute, executeBg, trace);
    b := rb.value;
  }

  /** With copied profiles, creating a second device leaves the first one's address alone. */
  method SeparateProfiles(nameA: string, nameB: string, hostPath: string, profileDir: seq<string>,
                          loaded: map<(string, string), ProfileClass>, importError: (string, string) -> string,
                          execute: Cmd.Argv -> Cmd.ProcOutcome, executeBg: Cmd.Argv -> Cmd.BgOutcome, trace: string)
    returns (a: AndroidBase, b: AndroidBase)
    requires SelectModule(nameA, [], profileDir) in loaded
    ensures a.profile != b.profile
    ensures Target(a.profile.Snapshot(), a.wifi) == "-s " + nameA
    ensures Target(b.profile.Snapshot(), b.wifi) == "-s " + nameB
  {
    var host := HostDir(hostPath, Some([]));
    var ra := AndroidBase.CreateOwnProfile(nameA, host, profileDir, loaded, importError, execute, executeBg, trace);
    a := ra.value;
    var rb := AndroidBase.CreateOwnProfile(nameB, host, profileDir, loaded, importError, execute, executeBg, trace);
    b := rb.value;
  }
}
