# YoRHa device helpers in Dafny

This project models the sequential logic of five parts of the YoRHa Android test
harness and proves properties about it:

- **Minicap frame loop** (`MinicapProcess`, from `yorha/device/minicap/process.py`).
  `MinicapProc` keeps a frame counter that starts at 1, a one-request slot, a result
  queue and the list of paths handed to `cv2.imwrite`. Each frame serves the pending
  `capture` / `patternmatch` / `ocr` request. Every fifth frame saves evidence
  `image_%08d.png`, and so does a frame whose match or OCR succeeded. `__search`
  is modelled as two steps: publish the request, then either take the queue head
  or time out.
- **ADB wrapper** (`Adb`, from `yorha/device/adb.py`).
  - Profile selection from a directory listing, with the `_0000000000000000`
    fallback.
  - The command lines `adb -s SERIAL ...` and `adb -s IP:PORT ...`, and the `WIFI`
    flag that `usb` and `tcpip` flip.
  - How `__exec` maps an exit code to a result.
  - The word-by-word `text` loop and the `SurfaceOrientation` parse of `rotate`.
  - Each `AndroidBase` records, in order, every command line it hands to the
    command runner.
- **Command runner** (`Cmd`, from `yorha/cmd.py`). `_shell` tokenisation, and how
  `run` / `run_bg` turn what the child process did into a tuple or a `RunError`.
- **Exception records** (`Errors`, from `yorha/exception.py`). How `YoRHaError`
  validates its `details` dictionary and fills in `type`, plus the fields and the
  string form of `RunError`.
- **Workspace** (`WorkspaceModule`, from `yorha/workspace/module.py`). The
  constructor, `_mkdir_recursive`, `mkdir`, `rmdir`, `touch` and `rm`, over an
  in-memory file system (`FileSystem`) with a set of directory paths and a set of
  file paths.

`Wrappers` holds `Option` and `Result`. A `Failure` stands for a Python exception
that leaves the call. `Strings` holds the Python string operations the source
relies on: `split`, `split()`, `join`, `replace`, `'%d'`, `'{0:08d}'` and `int`.
Each comes with the round-trip lemmas the other modules use.

External effects are parameters of the model:
- the child processes of `subprocess.run` (`execute`, `executeBg`) and the text of
  `traceback.format_exc()` (`trace`);
- the import system's classes (`loaded`, `importError`);
- `cv2.imwrite`, `Picture.search_pattern` and `Ocr.img_to_string` (`Collaborators`);
- the frames the stream delivers and the debug window's key codes (`frames`, `keys`);
- the process's working directory (`cwd`).

`yorha/exception.py` defines neither `AndroidError` nor `WorkspaceError`, although
`adb.py` and `module.py` import both from it. The model treats each as an
exception that carries its message.

Paths in the workspace are lists of components, absolute or relative. The empty
relative path is `''`, which `os.path.exists` reports as missing. In the frame loop,
paths are strings joined as POSIX `os.path.join` does. On POSIX, the folder names
`start` uses, such as `'tmp\\evidence'`, are single components that contain a
backslash. They are not nested folders, and the model keeps them as such.

## Model

| member | source | states |
|---|---|---|
| Errors.Validate | yorha/exception.py:18-29 | It fails exactly when the argument is not a dict, then exactly when some key is not a string, then exactly when 'message' is missing, in that order. On success the details are the input plus 'type', which defaults to the class name and is kept when present. No other entry changes. |
| Errors.New | yorha/exception.py:18-29 | The key-checking loop and the 'type' insertion compute exactly `Validate`. |
| Errors.HasTrace | yorha/exception.py:60-66 | The result is `details['trace']` when that key is present, and None otherwise. |
| Errors.FormatTrace | yorha/exception.py:68-80 | When `has_trace()` is None, whether 'trace' is missing or holds None, the result is ''. Otherwise it is the formatted 'trace' entries. |
| Errors.ConstructedAccessors | yorha/exception.py:43-66 | For a well-formed dict, `message` is the given message, `json` has exactly the given keys plus 'type', and `has_trace` is the given 'trace' or None. |
| Errors.ConstructedTrace | yorha/exception.py:60-80 | For a well-formed dict, the trace is formatted exactly when 'trace' is present and not None; otherwise `format_trace()` is ''. |
| Errors.OrEmpty | yorha/exception.py:100 | `x or ''` keeps every truthy value and turns every falsy one (empty text, 0, 0.0, False, an empty container, None) into ''. |
| Errors.RunError | yorha/exception.py:99-101 | The details have exactly the keys cmd, ptyout, out, message and type, with `ptyout == out`. Falsy inputs become ''. `type` is 'RunError'. |
| Errors.RunErrorStringOfText | yorha/exception.py:103-104 | `str(RunError(cmd, out, message))` is `cmd:\nmessage:\nout`. |
| Cmd.Shell | yorha/cmd.py:83-94 | The tokens are non-empty and free of whitespace. `cmd` is exactly those tokens with a non-empty whitespace run between each two and optional whitespace at both ends. Concatenated, the tokens are `cmd` with its whitespace removed. |
| Cmd.ShellLayoutUnique | yorha/cmd.py:93 | Any whitespace-free words that lay out `cmd` with whitespace runs between them are exactly `_shell(cmd)`, so the token boundaries are fixed. |
| Cmd.ShellBreaksAtWhitespace | yorha/cmd.py:93 | `"  a \t b "` gives the two tokens `a` and `b`. |
| Cmd.FixCmd | yorha/cmd.py:56 | In shell mode the runner gets exactly `_shell(cmd)`, whose concatenation is `cmd` without whitespace. Otherwise it gets the command string unchanged. |
| Cmd.Run | yorha/cmd.py:35-80 | A tuple is returned exactly on a clean exit whose output decodes, and its return code is 0. A timeout, a non-zero exit and undecodable output each raise a `RunError` with their own message prefix. Every such `RunError` names the command and has an empty 'out'. A spawn failure propagates unchanged. |
| Cmd.RunBg | yorha/cmd.py:14-32 | It succeeds exactly when the child was spawned, whatever its exit code. A `RunError` never leaves it. |
| Strings.SplitWhitespaceKeepsText | yorha/cmd.py:93 | `''.join(cmd.split())` is `cmd` without its whitespace. |
| Strings.SplitWhitespaceRoundTrip | yorha/cmd.py:93 | Splitting on whitespace the single-blank join of non-empty, blank-free words gives the words back. |
| Strings.SplitWhitespaceOfLayout | yorha/cmd.py:93 | Non-empty, whitespace-free words laid out with any whitespace runs between them, and any whitespace around them, split back into those words. |
| Strings.SplitWhitespaceLayout | yorha/cmd.py:93 | Every string is its `split()` words laid out with whitespace separators: non-empty between two words, possibly empty at the ends. |
| Strings.SplitJoin | yorha/device/adb.py:511 | `sep.join(s.split(sep)) == s`. |
| Strings.JoinSplit | yorha/device/adb.py:595 | Splitting the join of separator-free parts gives the parts back. |
| Strings.RemoveCharIsWithout | yorha/device/adb.py:99 | `s.replace('\r', '')` keeps every other character in order and leaves no '\r'. |
| Strings.RemovePyExtension | yorha/device/adb.py:55 | `fdn.replace('.py', '')` on `base + '.py'`, where `base` has no dot, gives `base`. |
| Strings.ZeroPadValue | yorha/device/minicap/process.py:158 | Reading the zero-padded decimal back gives the number. |
| Strings.ZeroPadInjective | yorha/device/minicap/process.py:158 | Distinct numbers never share a zero-padded form. |
| Strings.ParseIntRoundTrip | yorha/device/adb.py:598 | `int` reads back what `'%d'` wrote, also after leading whitespace. |
| Adb.LastMatchIsLast | yorha/device/adb.py:53-55 | The listing scan keeps the last accepted entry, and it finds nothing exactly when no entry is accepted. |
| Adb.ScanListing | yorha/device/adb.py:53-55 | The loop that reassigns `prof` computes the last match. |
| Adb.SelectModule | yorha/device/adb.py:47-64 | The last `.py` file naming the serial gives class `_<serial>`. Without one, the class is `_0000000000000000` and comes from the last fallback file of the profile directory, or from module 'None' when there is no such file. |
| Adb.Target | yorha/device/adb.py:117-125 | `-s SERIAL` over USB, and `-s IP:PORT` over Wi-Fi. |
| Adb.TargetedLineWords | yorha/device/adb.py:127-166 | Split at blanks, a targeted line is `adb`, `-s`, the device address, then the words of the command. |
| Adb.TapLineWords | yorha/device/adb.py:468-479 | Over USB, `tap(x, y)` issues exactly the words `adb -s SERIAL shell input tap x y`. |
| Adb.ExecResult | yorha/device/adb.py:81-106 | Exit 0 gives stdout without '\r'. A non-zero exit gives an `AndroidError` carrying stderr without '\r'. An exception from `run` propagates unwrapped. |
| Adb.PackageOf | yorha/device/adb.py:534 | The result is the prefix of `app` before its first '/'. |
| Adb.FirstContaining | yorha/device/adb.py:596-597 | It gives the index of the first line containing the needle, and None exactly when no line contains it. |
| Adb.ParseRotation | yorha/device/adb.py:595-599 | The result is None exactly when no line mentions `SurfaceOrientation`. The only failures are IndexError and ValueError. |
| Adb.RotationRoundTrip | yorha/device/adb.py:595-599 | A `...SurfaceOrientation: n` line, preceded only by lines that do not mention it, parses back to n. |
| Adb.TextLines | yorha/device/adb.py:511-514 | Each word issues two commands. |
| Adb.TextTypesWholeString | yorha/device/adb.py:505-523 | Joined with blanks, the words that `text(s)` types give back `s`. Command 2i is `input text` of word i. Command 2i+1 is the space keyevent, including after the last word. |
| Adb.AndroidBase.Dispatch | yorha/device/adb.py:127-143 | In the foreground, the call succeeds exactly on a clean, decodable exit and gives the output without '\r'. The `AndroidError` branch of `__exec` is unreachable. In the background, it returns None exactly when the child was spawned. |
| Adb.AndroidBase.Create | yorha/device/adb.py:36-71 | A missing host raises `Not Found. : host`. Otherwise the selected class gets `SERIAL = name` and `TMP_PICTURE = name_TMP.png`, on the shared class object itself, and nothing else changes. An import failure raises `AndroidError`. |
| Adb.AndroidBase.CreateOwnProfile | yorha/device/adb.py:36-71 | The same selection and errors, with the serial and picture name written to a fresh copy of the profile. |
| Adb.AndroidBase.RawAdb | yorha/device/adb.py:127-143 | It issues `adb command`, in the foreground or the background, appends it to the record, and returns what `Dispatch` gives. |
| Adb.AndroidBase.Adb | yorha/device/adb.py:153-166 | It issues `adb <target> command`. |
| Adb.AndroidBase.Push | yorha/device/adb.py:168-180 | It issues `adb <target> push src dst` in the foreground. |
| Adb.AndroidBase.Pull | yorha/device/adb.py:182-194 | It issues `adb <target> pull src dst` in the foreground. |
| Adb.AndroidBase.Shell | yorha/device/adb.py:196-209 | It issues `adb <target> shell command`. |
| Adb.AndroidBase.Connect | yorha/device/adb.py:211-220 | Over Wi-Fi it issues `adb connect IP:PORT`. Over USB it issues nothing and returns None. |
| Adb.AndroidBase.Disconnect | yorha/device/adb.py:222-231 | Over Wi-Fi it issues `adb disconnect IP:PORT`. Over USB it issues nothing and returns None. |
| Adb.AndroidBase.Usb | yorha/device/adb.py:233-242 | Afterwards `WIFI` is false and `adb -s SERIAL usb` was issued, after the disconnect when Wi-Fi was on. A failing disconnect leaves `WIFI` set. |
| Adb.AndroidBase.Tcpip | yorha/device/adb.py:244-254 | Afterwards `WIFI` is true, and the one command issued is `adb tcpip PORT`, because the disconnect before it is a no-op. |
| Adb.Android.Shell | yorha/device/adb.py:337-349 | It delegates to `AndroidBase.shell`. |
| Adb.Android.Dumpsys | yorha/device/adb.py:351-361 | It issues `shell dumpsys category`. |
| Adb.Android.Forward | yorha/device/adb.py:429-439 | It issues the targeted `adb <target> forward command`, which is not a shell command. |
| Adb.Android.Input | yorha/device/adb.py:441-453 | It issues `shell input command`. |
| Adb.Android.Am | yorha/device/adb.py:455-466 | It issues `shell am command`. |
| Adb.Android.Tap | yorha/device/adb.py:468-479 | It issues `shell input tap x y`. |
| Adb.Android.Keyevent | yorha/device/adb.py:493-503 | It issues `shell input keyevent code `, with a trailing blank. |
| Adb.Android.Text | yorha/device/adb.py:505-514 | On success the record grows by exactly `TextLines` of the blank-separated words. On an exception it grows by a non-empty proper part of them. |
| Adb.Android.TextPass | yorha/device/adb.py:511-514 | One word of `text(s)`: on success the record has grown by that word's two commands; on an exception it has grown by a non-empty part of the whole text's commands. |
| Adb.StoppedText | yorha/device/adb.py:511-514 | Stopping part-way through one word's two commands leaves a non-empty proper part of the whole text's commands. |
| Adb.Android.TypeWordAndSpace | yorha/device/adb.py:511-514 | One loop pass issues the word, then the space keyevent, and stops after the word if that fails. |
| Adb.Android.TypeWord | yorha/device/adb.py:516-523 | It issues `shell input text word`. The output is dropped and an exception propagates. |
| Adb.Android.Stop | yorha/device/adb.py:525-536 | It issues `shell am force-stop <package> `, where the package is the part of `app` before the first '/'. |
| Adb.Android.Getprop | yorha/device/adb.py:538-548 | It issues `shell getprop prop`. |
| Adb.Android.Setprop | yorha/device/adb.py:550-561 | It issues `shell setprop prop value`. |
| Adb.Android.Rotate | yorha/device/adb.py:584-599 | It issues `shell dumpsys input`, propagates its exception, and otherwise returns the parse of its output. |
| Adb.SharedFallbackProfile | yorha/device/adb.py:56-66 | Two devices without a profile file of their own share one profile object. The first device's commands then go to the second device's serial. |
| Adb.SeparateProfiles | yorha/device/adb.py:56-66 | With copied profiles, each device keeps its own serial. |
| WorkspaceModule.JoinPath | yorha/workspace/module.py:74-79 | An absolute name replaces the base. A relative name is appended, and the result is absolute exactly when the base is. |
| WorkspaceModule.FileSystem.MakeDir | yorha/workspace/module.py:49 | `os.mkdir`: it fails on an existing path (FileExists), under a file (NotADirectory) or under a missing parent (FileNotFound), each time with no change. Otherwise it adds exactly that directory. |
| WorkspaceModule.FileSystem.RemoveTree | yorha/workspace/module.py:122 | `shutil.rmtree` removes exactly the subtree of a directory. A missing path, a file or the root is refused with no change. |
| WorkspaceModule.FileSystem.CreateFile | yorha/workspace/module.py:150-151 | `open(path, 'a')` adds exactly that file when its parent is a directory, and otherwise fails with no change. |
| WorkspaceModule.FileSystem.RemoveFile | yorha/workspace/module.py:182 | `os.remove` removes exactly a file and refuses a directory (IsADirectory). |
| WorkspaceModule.Workspace.Create | yorha/workspace/module.py:22-37 | A non-string path raises `path must be strings.`. The workspace root is the path resolved against cwd. A missing path is accepted and not created. A non-empty directory is emptied when `clear` is set, and a file child makes that fail with `It must be vacant folder in the path.`. |
| WorkspaceModule.Workspace.CreateFixed | yorha/workspace/module.py:22-37 | The same, except that a missing path is created together with its missing ancestors, unless a file lies above it. |
| WorkspaceModule.Workspace.Populated | yorha/workspace/module.py:26-35 | An existing directory is pruned below itself exactly when `clear` is set, and fails exactly when it has a file child. An existing file raises NotADirectory. |
| WorkspaceModule.Workspace.Root | yorha/workspace/module.py:51-57 | `root()` is the absolute default path. |
| WorkspaceModule.Workspace.MkdirRecursive | yorha/workspace/module.py:39-49 | A relative path none of whose prefixes exists recurses forever, which is a RecursionError with nothing created. Otherwise, a file above the path raises NotADirectory with no change. Otherwise exactly the path and its ancestors are added, and no file changes. |
| WorkspaceModule.Workspace.MkdirClimb | yorha/workspace/module.py:45-49 | With the parent missing: the recursion on the parent fails or recurses forever exactly as for the path itself, and on success the parent and then the path are created. |
| WorkspaceModule.Workspace.MkdirUnderExisting | yorha/workspace/module.py:45-49 | With the parent existing the climb stops at once: never an endless recursion, NotADirectory when the parent is a file, and otherwise the path alone is added when missing. |
| WorkspaceModule.NoEndlessRecursionBelow | yorha/workspace/module.py:77-79 | A path joined under an existing host never makes `_mkdir_recursive` recurse forever. |
| WorkspaceModule.Workspace.MkdirRecursiveAbsolute | yorha/workspace/module.py:39-49 | On the absolute form of the path it never recurses forever. It adds exactly the path and its ancestors unless a file lies above it. |
| WorkspaceModule.Workspace.ClearChildren | yorha/workspace/module.py:84-90 | The loop of `rmtree` over the children fails exactly when some child is a file. On success everything strictly below the directory is gone and nothing else changes. |
| WorkspaceModule.Workspace.Mkdir | yorha/workspace/module.py:59-93 | The target is `root()/folder`, or `host/folder` after creating a missing host. Failure happens exactly on the endless recursion, a file on the way, or `clear` with a file child. On success the target is returned, the target and the host exist with their ancestors, nothing else is added, and the target's contents are pruned only under `clear`. |
| WorkspaceModule.Workspace.MkdirTarget | yorha/workspace/module.py:81-93 | A missing target is created with its ancestors. An existing non-empty one is emptied under `clear`. Failure happens exactly when a file is in the way or a file child blocks `clear`. |
| WorkspaceModule.Workspace.Rmdir | yorha/workspace/module.py:95-126 | A missing host is returned with no change. A missing target is returned with no change. An existing directory's subtree is removed exactly. A file or the root raises `Could not remove file ...`. |
| WorkspaceModule.Workspace.Touch | yorha/workspace/module.py:128-152 | An existing path raises `it is exists ...`. On success exactly that file is added, the host folder under the root is created when one is given, and the path is returned. |
| WorkspaceModule.Workspace.Rm | yorha/workspace/module.py:165-186 | A missing path raises `it is not exists ...`. A directory raises `Could not remove file ...` with no change. A file is removed exactly, and the directories never change. |
| WorkspaceModule.MissingRelativeHost | yorha/workspace/module.py:77-78 | `mkdir('logs', host=name)` for a missing relative `name` ends in RecursionError with no change. |
| WorkspaceModule.MissingRelativeHostCreated | yorha/workspace/module.py:39-49 | The corrected recursion creates `cwd/name`. |
| WorkspaceModule.TouchThenRm | yorha/workspace/module.py:128-186 | `touch(name)` then `rm` of the returned path restores the file system and returns the same path. |
| WorkspaceModule.TouchFresh | yorha/workspace/module.py:128-152 | `touch(name)` of a fresh name under the root adds exactly that file and returns its absolute path. |
| WorkspaceModule.RmFile | yorha/workspace/module.py:165-186 | `rm` of an existing file removes exactly that file and returns its path. |
| WorkspaceModule.MkdirThenRmdir | yorha/workspace/module.py:59-126 | `mkdir(name)` then `rmdir(name)` restores the file system and returns the same path. |
| MinicapProcess.PathJoin | yorha/device/minicap/process.py:228 | POSIX `os.path.join`: an absolute second part wins. Otherwise the result starts with the first part and ends with the second. It is '' only for two empty parts. |
| MinicapProcess.EvidenceNamesDistinct | yorha/device/minicap/process.py:152-160 | Distinct evidence indices give distinct file paths. |
| MinicapProcess.ForcedSaveReusesName | yorha/device/minicap/process.py:248-249 | A save forced at counter 5k+r, with 0 < r < 5, writes the name of the periodic save at 5k. |
| MinicapProcess.Serve | yorha/device/minicap/process.py:226-246 | `capture` writes `join(space['tmp'], target)` and publishes it exactly when the write succeeds. `patternmatch` and `ocr` publish exactly a truthy result and force evidence exactly then. An unknown function does nothing. A missing 'tmp' raises KeyError. |
| MinicapProcess.CaptureNeverForces | yorha/device/minicap/process.py:221-249 | Evidence is forced exactly by a published `patternmatch` or `ocr` result, and never by a capture. |
| MinicapProcess.EvidenceWrites | yorha/device/minicap/process.py:248-249 | At most one write happens. It happens exactly when the counter is a multiple of 5 or a save is forced, and 'tmp.evidence' is set. The path is `image_%08d.png` of `counter / 5`. |
| MinicapProcess.FiveFrames | yorha/device/minicap/process.py:248-249 | Of five frames without a request, only the fifth saves evidence. |
| MinicapProcess.QuietRun | yorha/device/minicap/process.py:248-249 | Frames whose counters are not multiples of 5 save no evidence when nothing is forced. |
| MinicapProcess.PeriodicEvidenceNames | yorha/device/minicap/process.py:248-265 | Without a request, frames 1 to 5k leave exactly `image_00000001` … `image_k`, in order. |
| MinicapProcess.MinicapProc.constructor | yorha/device/minicap/process.py:59-73 | The counter starts at 1, the slot and the queue are empty, the loop flag is set, and no loop thread runs yet. |
| MinicapProcess.MinicapProc.Start | yorha/device/minicap/process.py:75-107 | On success, `space` records `log`, `tmp`, `tmp.evidence`, `tmp.reference` and `tmp.video` as the workspace folders named after the package, and the loop thread runs. A failed `mkdir` raises before the thread starts. |
| MinicapProcess.MinicapProc.MakeLayout | yorha/device/minicap/process.py:89-101 | On success, `space` records the five workspace folders named after the package. |
| MinicapProcess.MinicapProc.Record | yorha/device/minicap/process.py:90-101 | One `self.space[key] = workspace.mkdir(folder)`: on success only `key` changes, to the folder under the workspace root; on failure `space` is unchanged. |
| MinicapProcess.MinicapProc.MakeFolder | yorha/device/minicap/process.py:89-101 | `workspace.mkdir(folder)` returns the folder under the workspace root. |
| MinicapProcess.MinicapProc.Finish | yorha/device/minicap/process.py:109-116 | The loop flag is cleared. |
| MinicapProcess.MinicapProc.Step | yorha/device/minicap/process.py:219-265 | One iteration enqueues what `Serve` publishes, writes what it writes plus the due evidence, and never touches the slot. It breaks exactly on Escape in debug mode, and otherwise advances the counter by exactly 1. On an exception nothing changes. |
| MinicapProcess.MinicapProc.StepAsWritten | yorha/device/minicap/process.py:226-246 | As written, `patternmatch` raises NameError('Picture') and `ocr` raises NameError('Ocr'), before any change. Other requests behave as in `Step`. |
| MinicapProcess.MinicapProc.MainLoop | yorha/device/minicap/process.py:213-268 | The counter grows by the number of iterations. All frames are consumed unless the loop breaks. At most one result is enqueued per frame. Without a request, exactly the periodic evidence is saved. What the first frame publishes heads the new results. The thread is still alive afterwards exactly when no exception, no Escape and no cleared loop flag ended `main_loop`. |
| MinicapProcess.MinicapProc.RunFrames | yorha/device/minicap/process.py:219-265 | The `while` loop over the delivered frames: the counter grows by the iterations, all frames are consumed unless Escape or an exception ends it, and without a request exactly the periodic evidence is saved. |
| MinicapProcess.MinicapProc.Publish | yorha/device/minicap/process.py:175-176 | The slot holds `SearchObject(func, target, box)`. |
| MinicapProcess.MinicapProc.Await | yorha/device/minicap/process.py:177-178 | It dequeues the head and clears the slot. On an empty queue it times out and leaves the slot set. |
| MinicapProcess.MinicapProc.Search | yorha/device/minicap/process.py:162-180 | A timeout leaves the request in the slot. A success clears it. A stale result left in the queue is what the call receives. Once the loop thread has ended, no frame is handled and, with the queue empty, the call times out. Otherwise, with the thread alive, the first frame's published result is received. |
| MinicapProcess.LoopEndTimesOutLaterSearch | yorha/device/minicap/process.py:162-265 | After `main_loop` raises or breaks on Escape with no request pending, a later request times out even with frames still coming. |
| MinicapProcess.MinicapProc.CaptureImage | yorha/device/minicap/process.py:182-190 | It issues `capture` with box None. A successful write on the first frame returns `join(space['tmp'], filename)`. |
| MinicapProcess.MinicapProc.SearchPattern | yorha/device/minicap/process.py:192-201 | It issues `patternmatch` with the given box. A truthy match on the first frame is returned. |
| MinicapProcess.MinicapProc.SearchOcr | yorha/device/minicap/process.py:203-211 | It issues `ocr` with target 'dummy'. Truthy text on the first frame is returned. |
| MinicapProcess.AbandonedCaptureServicedAgain | yorha/device/minicap/process.py:226-231 | After a timed-out capture, the next frame still writes and enqueues the capture for nobody. |
| MinicapProcess.PatternMatchEndsLoop | yorha/device/minicap/process.py:233-235 | As written, a pattern-match request kills the loop on its first frame and yields no result. |

## Left out

- Child processes, the `cwd` and `timeout` arguments, and `_debug`'s stderr output. `execute` receives the argument exactly as `subprocess.run` would, and the model does not decide what the operating system makes of it. On POSIX, a command string passed with `shell=False` names the program itself.
- Cmd.Run: the traceback text is the parameter `trace`, not the real `traceback.format_exc()`.
- `importlib.import_module`, the `sys.path` edits and the profile class objects themselves. The classes the import system can find are the parameter `loaded`, and the text of an import failure is `importError`.
- The `AndroidBase` operations `kill`, `root`, `remount`, `restart`, `install`, `uninstall`, `wait` and `get_profile`, and the `Android` operations `get`, `snapshot`, `start`, `push`, `pull`, `install`, `uninstall`, `invoke`, `power`, `boot_completed` and `reboot`. Each is one more command line built the way the modelled ones are, or a sleep-and-poll sequence around device I/O.
- Strings.ParseInt: Python's `int` also accepts underscores between digits and non-ASCII digits. The model reads only an optional sign and ASCII digits, surrounded by whitespace.
- Adb.Android.Text: after an exception, the record is bounded by the full command sequence but not fixed.
- `YoRHaError.__str__` and `print_trace`, because they mix bytes and text and write to stderr.
- Errors.FormatTrace: `traceback.format_list` is the parameter `formatList`.
- Errors.New: `YoRHaError.__init__` writes 'type' into the caller's own dictionary and keeps that very object. The model returns a new map, so the caller's dictionary is not shown to gain 'type', and later changes through either name are not shared.
- Errors.Falsy: an object of another class is taken as true. A class of its own with `__bool__` or `__len__` is not modelled.
- Threads, the `Queue` blocking `get(timeout=...)` and the inter-process lock. `__search` is modelled sequentially: the loop thread handles `frames` between the publish and the wait, and a timeout means the queue is empty at the wait.
- `MinicapProc.start`'s service start, port forward, stream start and `time.sleep`. The thread start is the `running` flag. `finish`'s stream and service shutdown.
- The output queue and `get_d` / `get_frame`. Nothing in the source ever fills that queue.
- Image decoding, `cv2.imwrite`, `Picture.search_pattern`, `Ocr.img_to_string` and the debug window's resizing and display. They are the `Collaborators` functions and the key code that closes the window.
- MinicapProcess.MinicapProc.MainLoop: when a request is pending, only the first frame's result is pinned down. Later frames are bounded, at most one result each.
- MinicapProcess.EvidenceWrites: `counter / 5` is a float in Python, and `int` truncates it. For a non-negative counter that equals integer division, which the model uses.
- MinicapProcess.MinicapProc.Start: after a failed `mkdir`, `space` holds the folders recorded so far. The contract does not state them.
- `Workspace.unique`, because it names the file after the wall clock.
- Path normalisation: `os.path.abspath` collapsing `..`, `.` and repeated `/`, and the trailing `/` that `os.path.join(p, '')` adds. Permissions and symbolic links are also not modelled. `shutil.rmtree` of `/` is the only refusal the model gives a directory.
- WorkspaceModule.Workspace.ClearChildren: after a failure, the remaining files are only bounded. `rmtree` stops at the first file child, and the order of `os.listdir` is not modelled.
- WorkspaceModule.Workspace.Mkdir: after a failure other than the endless recursion, the partial state (a host already created, children already removed) is not stated.
- WorkspaceModule.Workspace.Touch: when a host is given, the failures of creating it are stated only through `Mkdir`. The contract does not list them.
- Logging calls.

## Findings

| source | as written | input that shows it | evidently intended | confidence | as-written member | corrected member |
|---|---|---|---|---|---|---|
| yorha/device/adb.py:56-66 | The fallback class `_0000000000000000` is the one cached class object, and `SERIAL` / `TMP_PICTURE` are assigned on it | `AndroidBase('A')`, then `AndroidBase('B')`, with no profile file naming either serial: device A's commands now carry `-s B` | Each device keeps its own serial | not executed | Adb.SharedFallbackProfile | Adb.SeparateProfiles |
| yorha/workspace/module.py:26-37 | The `else` belongs to `if os.listdir(path)`, so `_mkdir_recursive` runs only on an existing empty directory, where it does nothing | `Workspace('/w')` with `/w` missing: nothing is created, and `root()` names a missing folder | A missing workspace path is created | not executed | WorkspaceModule.Workspace.Create | WorkspaceModule.Workspace.CreateFixed |
| yorha/workspace/module.py:39-49 | `_mkdir_recursive` stops climbing only at an existing path, and the `dirname` of a one-component relative path is `''`, which never exists | `mkdir('logs', host='out')` with `out` missing in the working directory: endless recursion (RecursionError) | Relative paths are created under the working directory | not executed | WorkspaceModule.MissingRelativeHost | WorkspaceModule.MissingRelativeHostCreated |
| yorha/device/minicap/process.py:233-241 | `Picture` and `Ocr` are used but never imported | `search_pattern('x.png')` with the loop running: the loop thread dies with NameError, and the caller times out | The `patternmatch` and `ocr` requests are served | not executed | MinicapProcess.PatternMatchEndsLoop | MinicapProcess.MinicapProc.Step |
