/**
 * The frame loop of yorha/device/minicap/process.py: `MinicapProc` services one
 * pending search request per frame, publishes results to a queue, and saves
 * evidence frames; `__search` publishes a request and waits for a result.
 *
 * Decoded frames, `cv2.imwrite` and the pattern-matching and OCR routines are
 * collaborators passed in as functions. The frames the loop thread handles while
 * a caller waits are an explicit parameter, and waiting ends in a timeout exactly
 * when the result queue is empty at that point.
 */
module MinicapProcess {
  import opened Wrappers
  import Strings
  import WorkspaceModule

  /** Pixel data of a decoded frame; never inspected here. */
  type Image = seq<int>

  /** A search region. */
  type Box = seq<int>

  /** `SearchObject(func, target, box)`. */
  datatype SearchObject = SearchObject(func: string, target: string, box: Option<Box>)

  /** The foreign routines a frame is handed to. */
  datatype Collaborators = Collaborators(
    imwrite: (string, Image) -> bool,
    searchPattern: (Image, string, Option<Box>, string) -> (Option<string>, Image),
    imgToString: (Image, Option<Box>, string) -> (Option<string>, Image))

  /** The exceptions that leave the loop thread or a caller's wait. */
  datatype ProcError = KeyError(key: string) | NameError(name: string) | Timeout

  const Capture := "capture"
  const PatternMatch := "patternmatch"
  const Ocr := "ocr"

  /** The key code that closes the debug window. */
  const EscapeKey := 27

  /** Python truthiness of an optional string result. */
  predicate Truthy(o: Option<string>) {
    o.Some? && o.value != ""
  }

  /** `os.path.join(a, b)` on POSIX strings. */
  function PathJoin(a: string, b: string): (r: string)
    ensures b != "" && b[0] == '/' ==> r == b
    ensures (b == "" || b[0] != '/') ==> Strings.StartsWith(r, a) && Strings.EndsWith(r, b)
    ensures r == "" <==> a == "" && b == ""
  {
    if b != "" && b[0] == '/' then b
    else if a == "" || a[|a| - 1] == '/' then a + b
    else a + "/" + b
  }

  /** `'image_%s.png' % '{0:08d}'.format(n)`. */
  function EvidenceFileName(n: nat): string {
    "image_" + Strings.ZeroPad(n, 8) + ".png"
  }

  function EvidencePath(dir: string, n: nat): string {
    PathJoin(dir, EvidenceFileName(n))
  }

  /** Evidence names are distinct for distinct indices. */
  lemma EvidenceNamesDistinct(dir: string, i: nat, j: nat)
    requires EvidencePath(dir, i) == EvidencePath(dir, j)
    ensures i == j
  {
    var a, b := EvidenceFileName(i), EvidenceFileName(j);
    assert a[0] != '/' && b[0] != '/';
    assert |Strings.ZeroPad(i, 8)| == |Strings.ZeroPad(j, 8)| by {
      assert |a| == |b|;
    }
    assert a == b;
    assert Strings.ZeroPad(i, 8) == a[6..|a| - 4];
    assert Strings.ZeroPad(j, 8) == b[6..|b| - 4];
    Strings.ZeroPadInjective(i, j, 8);
  }

  /**
   * A save forced on frame 5k + r (0 < r < 5) goes to the name of the periodic
   * save of frame 5k.
   */
  lemma ForcedSaveReusesName(dir: string, k: nat, r: nat)
    requires 0 < r < 5
    ensures EvidencePath(dir, (5 * k + r) / 5) == EvidencePath(dir, 5 * k / 5)
  {
    assert (5 * k + r) / 5 == k;
    assert 5 * k / 5 == k;
  }

  /** What servicing the pending request on one frame did. */
  datatype Serviced = Serviced(published: Option<string>, forced: bool, image: Image, written: seq<string>)

  function Published(s: Serviced): seq<string> {
    if s.published.Some? then [s.published.value] else []
  }

  /**
   * The dispatch on `func` inside the loop body: `capture` writes the frame to
   * `space['tmp']/target` and publishes that path if the write succeeds;
   * `patternmatch` and `ocr` publish a truthy result and force evidence; any
   * other name publishes nothing.
   */
  function Serve(s: SearchObject, image: Image, space: map<string, string>, c: Collaborators): (r: Result<Serviced, ProcError>)
    ensures r.Failure? <==> s.func in {Capture, PatternMatch, Ocr} && "tmp" !in space
    ensures r.Failure? ==> r.error == KeyError("tmp")
    ensures r.Success? && r.value.forced ==> r.value.published.Some? && s.func in {PatternMatch, Ocr}
    ensures r.Success? && r.value.published.Some? ==> r.value.published.value != "" && s.func in {Capture, PatternMatch, Ocr}
    ensures r.Success? && s.func != Capture ==> r.value.written == [] && (r.value.forced <==> r.value.published.Some?)
    ensures r.Success? && s.func == Capture ==>
              var out := PathJoin(space["tmp"], s.target);
              && r.value.written == [out] && !r.value.forced && r.value.image == image
              && (r.value.published.Some? <==> c.imwrite(out, image) && out != "")
              && (r.value.published.Some? ==> r.value.published.value == out)
    ensures r.Success? && s.func == PatternMatch ==>
              var (found, annotated) := c.searchPattern(image, s.target, s.box, space["tmp"]);
              r.value.image == annotated && (r.value.published.Some? <==> Truthy(found))
              && (Truthy(found) ==> r.value.published == found)
    ensures r.Success? && s.func == Ocr ==>
              var (text, annotated) := c.imgToString(image, s.box, space["tmp"]);
              r.value.image == annotated && (r.value.published.Some? <==> Truthy(text))
              && (Truthy(text) ==> r.value.published == text)
    ensures s.func !in {Capture, PatternMatch, Ocr} ==> r == Success(Serviced(None, false, image, []))
  {
    if s.func == Capture then
      if "tmp" !in space then Failure(KeyError("tmp"))
      else
        var out := PathJoin(space["tmp"], s.target);
        var ok := c.imwrite(out, image) && out != "";
        Success(Serviced(if ok then Some(out) else None, false, image, [out]))
    else if s.func == PatternMatch then
      if "tmp" !in space then Failure(KeyError("tmp"))
      else
        var (found, annotated) := c.searchPattern(image, s.target, s.box, space["tmp"]);
        Success(Serviced(if Truthy(found) then found else None, Truthy(found), annotated, []))
    else if s.func == Ocr then
      if "tmp" !in space then Failure(KeyError("tmp"))
      else
        var (text, annotated) := c.imgToString(image, s.box, space["tmp"]);
        Success(Serviced(if Truthy(text) then text else None, Truthy(text), annotated, []))
    else
      Success(Serviced(None, false, image, []))
  }

  /** A capture never forces evidence; only a published match or OCR text does. */
  lemma CaptureNeverForces(s: SearchObject, image: Image, space: map<string, string>, c: Collaborators)
    requires Serve(s, image, space, c).Success?
    ensures Serve(s, image, space, c).value.forced <==>
              s.func in {PatternMatch, Ocr} && Serve(s, image, space, c).value.published.Some?
  {
  }

  /**
   * `__save_evidence(counter / 5, ...)` when due (every fifth frame, or when forced):
   * nothing without `space['tmp.evidence']`.
   */
  function EvidenceWrites(space: map<string, string>, counter: nat, forced: bool): (w: seq<string>)
    ensures |w| <= 1
    ensures |w| == 1 <==> (counter % 5 == 0 || forced) && "tmp.evidence" in space
    ensures |w| == 1 ==> w[0] == EvidencePath(space["tmp.evidence"], counter / 5)
  {
    if (counter % 5 == 0 || forced) && "tmp.evidence" in space then
      [EvidencePath(space["tmp.evidence"], counter / 5)]
    else
      []
  }

  /** The evidence saved for frames `lo` up to (not including) `hi` when no request is pending. */
  function PeriodicEvidence(space: map<string, string>, lo: nat, hi: nat): seq<string>
    decreases hi
  {
    if hi <= lo then [] else PeriodicEvidence(space, lo, hi - 1) + EvidenceWrites(space, hi - 1, false)
  }

  lemma {:induction false} PeriodicEvidenceSplit(space: map<string, string>, lo: nat, mid: nat, hi: nat)
    requires lo <= mid <= hi
    ensures PeriodicEvidence(space, lo, hi) == PeriodicEvidence(space, lo, mid) + PeriodicEvidence(space, mid, hi)
    decreases hi
  {
    if hi > mid {
      PeriodicEvidenceSplit(space, lo, mid, hi - 1);
    }
  }

  /** The evidence names image_00000001 .. image_k under `dir`, in order. */
  function EvidenceSeries(dir: string, k: nat): (names: seq<string>)
    ensures |names| == k
  {
    if k == 0 then [] else EvidenceSeries(dir, k - 1) + [EvidencePath(dir, k)]
  }

  lemma {:induction false} EvidenceSeriesAt(dir: string, k: nat)
    ensures forall i | 0 <= i < k :: EvidenceSeries(dir, k)[i] == EvidencePath(dir, i + 1)
  {
    if k > 0 {
      EvidenceSeriesAt(dir, k - 1);
      assert forall i | 0 <= i < k - 1 :: EvidenceSeries(dir, k)[i] == EvidenceSeries(dir, k - 1)[i];
    }
  }

  lemma DivModFive(q: nat, r: nat)
    requires r < 5
    ensures (5 * q + r) % 5 == r && (5 * q + r) / 5 == q
  {
  }

  /** The frame with counter 5q saves evidence `q`. */
  lemma DueFrame(space: map<string, string>, c: nat, q: nat)
    requires "tmp.evidence" in space && c == 5 * q
    ensures EvidenceWrites(space, c, false) == [EvidencePath(space["tmp.evidence"], q)]
  {
    DivModFive(q, 0);
  }

  /** One more frame with no request. */
  lemma PeriodicEvidenceNext(space: map<string, string>, lo: nat, hi: nat, next: nat)
    requires lo <= hi && next == hi + 1
    ensures PeriodicEvidence(space, lo, next) == PeriodicEvidence(space, lo, hi) + EvidenceWrites(space, hi, false)
  {
  }

  /** Frames `lo` .. `hi`-1 with no request and no counter a multiple of 5 save nothing. */
  lemma {:induction false} QuietRun(space: map<string, string>, lo: nat, hi: nat)
    requires lo <= hi
    requires forall c: nat | lo <= c < hi :: c % 5 != 0
    ensures PeriodicEvidence(space, lo, hi) == []
    decreases hi
  {
    if hi > lo {
      var last: nat := hi - 1;
      QuietRun(space, lo, last);
      assert last % 5 != 0;
      PeriodicEvidenceNext(space, lo, last, hi);
    }
  }

  /** A frame without a request extends the periodic evidence saved so far by that frame's own. */
  lemma QuietFrameEvidence(space: map<string, string>, c0: nat, k: nat, s0: seq<string>, before: seq<string>, after: seq<string>)
    requires c0 <= k && before == s0 + PeriodicEvidence(space, c0, k)
    requires after == before + [] + EvidenceWrites(space, k, false)
    ensures after == s0 + PeriodicEvidence(space, c0, k + 1)
  {
    PeriodicEvidenceNext(space, c0, k, k + 1);
  }

  /** No counter strictly between 5k and 5k+5 is a multiple of 5. */
  lemma NoMultipleOfFiveBetween(k: nat)
    ensures forall c: nat | 5 * k + 1 <= c < 5 * k + 5 :: c % 5 != 0
  {
    forall c: nat | 5 * k + 1 <= c < 5 * k + 5
      ensures c % 5 != 0
    {
      DivModFive(k, c - 5 * k);
    }
  }

  /** Of five frames with no request, only the last (a multiple of 5) saves evidence. */
  lemma FiveFrames(space: map<string, string>, k: nat)
    requires "tmp.evidence" in space
    ensures PeriodicEvidence(space, 5 * k + 1, 5 * k + 6) == [EvidencePath(space["tmp.evidence"], k + 1)]
  {
    NoMultipleOfFiveBetween(k);
    QuietRun(space, 5 * k + 1, 5 * k + 5);
    DueFrame(space, 5 * k + 5, k + 1);
    PeriodicEvidenceNext(space, 5 * k + 1, 5 * k + 5, 5 * k + 6);
  }

  /** Five more frames with no request add the next evidence name. */
  lemma PeriodicEvidenceStep(space: map<string, string>, j: nat)
    requires "tmp.evidence" in space
    requires PeriodicEvidence(space, 1, 5 * j + 1) == EvidenceSeries(space["tmp.evidence"], j)
    ensures PeriodicEvidence(space, 1, 5 * j + 6) == EvidenceSeries(space["tmp.evidence"], j + 1)
  {
    PeriodicEvidenceSplit(space, 1, 5 * j + 1, 5 * j + 6);
    FiveFrames(space, j);
  }

  /**
   * With no request, the first 5k frames (counter 1 .. 5k) leave exactly the
   * evidence files image_00000001 .. image_k, in order.
   */
  lemma {:induction false} PeriodicEvidenceNames(space: map<string, string>, k: nat)
    requires "tmp.evidence" in space
    ensures PeriodicEvidence(space, 1, 5 * k + 1) == EvidenceSeries(space["tmp.evidence"], k)
  {
    if k == 0 {
      assert PeriodicEvidence(space, 1, 1) == [];
    } else {
      var j: nat := k - 1;
      PeriodicEvidenceNames(space, j);
      PeriodicEvidenceStep(space, j);
      assert 5 * j + 6 == 5 * k + 1 && j + 1 == k;
    }
  }

  /** The name of a workspace folder under `root`, as `mkdir` returns it. */
  function SpacePath(root: WorkspaceModule.Path, folder: string): string {
    WorkspaceModule.PathText(WorkspaceModule.Abs(root + Strings.Split(folder, '/')))
  }

  function TmpFolder(package: Option<string>, sub: string): string {
    match package
    case None => if sub == "" then "tmp" else "tmp\\" + sub
    case Some(p) => if sub == "" then "tmp\\" + p else "tmp\\" + p + "\\" + sub
  }

  /** `space` once `start` has recorded its folders under `root`. */
  function WithLayout(space: map<string, string>, root: WorkspaceModule.Path, package: Option<string>): map<string, string> {
    space["log" := SpacePath(root, "log")]
         ["tmp" := SpacePath(root, TmpFolder(package, ""))]
         ["tmp.evidence" := SpacePath(root, TmpFolder(package, "evidence"))]
         ["tmp.reference" := SpacePath(root, TmpFolder(package, "reference"))]
         ["tmp.video" := SpacePath(root, TmpFolder(package, "video"))]
  }

  /** What the pending request publishes on the first of `frames`, if anything. */
  function FirstPublished(search: Option<SearchObject>, frames: seq<Image>, space: map<string, string>, c: Collaborators): Option<string> {
    if search.Some? && |frames| > 0 && Serve(search.value, frames[0], space, c).Success? then
      Serve(search.value, frames[0], space, c).value.published
    else
      None
  }

  /** How a run of the loop ended. */
  datatype LoopEnd = LoopEnd(iterations: nat, escaped: bool)

  class MinicapProc {
    var space: map<string, string>
    var loopFlag: bool
    /** Whether the `main_loop` thread is alive: started by `start`, gone once `main_loop` returns or raises. */
    var running: bool
    const debug: bool
    var search: Option<SearchObject>
    var results: seq<string>
    var counter: nat
    /** Every path handed to `cv2.imwrite`, in order. */
    var saved: seq<string>

    constructor (debug: bool)
      ensures this.debug == debug
      ensures space == map[] && loopFlag && !running && search == None && results == [] && counter == 1 && saved == []
    {
      this.debug := debug;
      space := map[];
      loopFlag := true;
      running := false;
      search := None;
      results := [];
      counter := 1;
      saved := [];
    }

    /**
     * The workspace part of `start`: the folders are made in the workspace root and
     * recorded in `space`; the service, port forward and stream are not modelled.
     */
    method Start(ws: WorkspaceModule.Workspace, package: Option<string>) returns (r: Result<(), WorkspaceModule.WsError>)
      requires ws.fs.Valid()
      modifies this`space, this`running, ws.fs
      ensures ws.fs.Valid()
      ensures r.Success? ==> space == WithLayout(old(space), ws.defaultPath, package) && running
      ensures r.Failure? ==> running == old(running)
    {
      r := MakeLayout(ws, package);
      if r.Success? {
        // threading.Thread(target=self.main_loop).start()
        running := true;
      }
    }

    /** The folders `start` makes and records in `space`, in source order. */
    method MakeLayout(ws: WorkspaceModule.Workspace, package: Option<string>) returns (r: Result<(), WorkspaceModule.WsError>)
      requires ws.fs.Valid()
      modifies this`space, ws.fs
      ensures ws.fs.Valid()
      ensures r.Success? ==> space == WithLayout(old(space), ws.defaultPath, package)
    {
      var made := MakeFolder(ws, "tmp");
      if made.Failure? {
        return Failure(made.error);
      }
      r := Record(ws, "log", "log");
      if r.Failure? {
        return;
      }
      r := Record(ws, "tmp", TmpFolder(package, ""));
      if r.Failure? {
        return;
      }
      r := Record(ws, "tmp.evidence", TmpFolder(package, "evidence"));
      if r.Failure? {
        return;
      }
      r := Record(ws, "tmp.reference", TmpFolder(package, "reference"));
      if r.Failure? {
        return;
      }
      r := Record(ws, "tmp.video", TmpFolder(package, "video"));
    }

    /** `self.space[key] = workspace.mkdir(folder)`. */
    method Record(ws: WorkspaceModule.Workspace, key: string, folder: string) returns (r: Result<(), WorkspaceModule.WsError>)
      requires ws.fs.Valid()
      modifies this`space, ws.fs
      ensures ws.fs.Valid()
      ensures r.Success? ==> space == old(space)[key := SpacePath(ws.defaultPath, folder)]
      ensures r.Failure? ==> space == old(space)
    {
      var made := MakeFolder(ws, folder);
      if made.Failure? {
        return Failure(made.error);
      }
      space := space[key := made.value];
      r := Success(());
    }

    /** `workspace.mkdir(folder)`, returning the path as text. */
    static method MakeFolder(ws: WorkspaceModule.Workspace, folder: string) returns (r: Result<string, WorkspaceModule.WsError>)
      requires ws.fs.Valid()
      modifies ws.fs
      ensures ws.fs.Valid()
      ensures r.Success? ==> r.value == SpacePath(ws.defaultPath, folder)
    {
      var made := ws.Mkdir(WorkspaceModule.Str(WorkspaceModule.Rel(Strings.Split(folder, '/'))), WorkspaceModule.Empty, false);
      if made.Failure? {
        return Failure(made.error);
      }
      return Success(WorkspaceModule.PathText(made.value));
    }

    /** `finish`: asks the loop to stop after the current frame. */
    method Finish()
      modifies this`loopFlag
      ensures !loopFlag
    {
      loopFlag := false;
    }

    /**
     * One iteration of the `main_loop` body on a decoded frame, with `key` the
     * debug window's key code: the pending request is serviced (the slot itself is
     * only read), evidence is saved when due, and the counter advances unless the
     * debug window was closed with Escape.
     */
    method Step(frame: Image, key: int, c: Collaborators) returns (r: Result<bool, ProcError>)
      modifies this`counter, this`results, this`saved
      ensures r.Failure? <==> search.Some? && Serve(search.value, frame, space, c).Failure?
      ensures r.Failure? ==> counter == old(counter) && results == old(results) && saved == old(saved)
      ensures r.Success? ==>
                var sv := if search.None? then Serviced(None, false, frame, []) else Serve(search.value, frame, space, c).value;
                && results == old(results) + Published(sv)
                && saved == old(saved) + sv.written + EvidenceWrites(space, old(counter), sv.forced)
                && (r.value <==> debug && key == EscapeKey)
                && counter == old(counter) + (if r.value then 0 else 1)
    {
      var sv := Serviced(None, false, frame, []);
      if search.Some? {
        var served := Serve(search.value, frame, space, c);
        if served.Failure? {
          return Failure(served.error);
        }
        sv := served.value;
      }
      results := results + Published(sv);
      saved := saved + sv.written;
      saved := saved + EvidenceWrites(space, counter, sv.forced);
      if debug && key == EscapeKey {
        return Success(true);
      }
      counter := counter + 1;
      r := Success(false);
    }

    /**
     * The loop body as written: `Picture` and `Ocr` are never imported, so a
     * `patternmatch` or `ocr` request raises `NameError` before anything is done.
     */
    method StepAsWritten(frame: Image, key: int, c: Collaborators) returns (r: Result<bool, ProcError>)
      modifies this`counter, this`results, this`saved
      ensures search.Some? && search.value.func == PatternMatch ==>
                r == Failure(NameError("Picture")) && counter == old(counter) && results == old(results) && saved == old(saved)
      ensures search.Some? && search.value.func == Ocr ==>
                r == Failure(NameError("Ocr")) && counter == old(counter) && results == old(results) && saved == old(saved)
      ensures r.Success? ==> results == old(results) || (search.Some? && search.value.func == Capture)
      ensures (search.None? || search.value.func !in {PatternMatch, Ocr}) ==>
                && (r.Failure? <==> search.Some? && Serve(search.value, frame, space, c).Failure?)
                && (r.Success? ==>
                      var sv := if search.None? then Serviced(None, false, frame, []) else Serve(search.value, frame, space, c).value;
                      results == old(results) + Published(sv) && saved == old(saved) + sv.written + EvidenceWrites(space, old(counter), false))
    {
      if search.Some? && search.value.func == PatternMatch {
        return Failure(NameError("Picture"));
      }
      if search.Some? && search.value.func == Ocr {
        return Failure(NameError("Ocr"));
      }
      r := Step(frame, key, c);
    }

    /**
     * `main_loop` over the frames the stream delivers: runs while the loop flag is
     * set and frames remain, and ends early on Escape or on an exception.
     */
    method MainLoop(frames: seq<Image>, keys: seq<int>, c: Collaborators) returns (r: Result<LoopEnd, ProcError>)
      requires |keys| == |frames| && running
      modifies this`counter, this`results, this`saved, this`running
      ensures running <==> r.Success? && !r.value.escaped && loopFlag
      ensures !loopFlag ==> r == Success(LoopEnd(0, false)) && counter == old(counter) && results == old(results) && saved == old(saved)
      ensures r.Success? ==> counter == old(counter) + r.value.iterations && r.value.iterations <= |frames|
      ensures r.Success? && loopFlag && !r.value.escaped ==> r.value.iterations == |frames|
      ensures old(results) <= results && |results| <= |old(results)| + |frames|
      ensures search.None? ==> results == old(results)
      ensures search.None? && r.Success? ==>
                saved == old(saved) + PeriodicEvidence(space, old(counter), counter + (if r.value.escaped then 1 else 0))
      ensures loopFlag && FirstPublished(search, frames, space, c).Some? ==>
                |results| > |old(results)| && results[|old(results)|] == FirstPublished(search, frames, space, c).value
    {
      r := RunFrames(frames, keys, c);
      if r.Failure? || r.value.escaped || !loopFlag {
        // main_loop has returned or raised, and its thread ends with it
        running := false;
      }
    }

    /** The `while self._loop_flag` loop of `main_loop` over `frames`. */
    method RunFrames(frames: seq<Image>, keys: seq<int>, c: Collaborators) returns (r: Result<LoopEnd, ProcError>)
      requires |keys| == |frames|
      modifies this`counter, this`results, this`saved
      ensures !loopFlag ==> r == Success(LoopEnd(0, false)) && counter == old(counter) && results == old(results) && saved == old(saved)
      ensures r.Success? ==> counter == old(counter) + r.value.iterations && r.value.iterations <= |frames|
      ensures r.Success? && loopFlag && !r.value.escaped ==> r.value.iterations == |frames|
      ensures old(results) <= results && |results| <= |old(results)| + |frames|
      ensures search.None? ==> results == old(results)
      ensures search.None? && r.Success? ==>
                saved == old(saved) + PeriodicEvidence(space, old(counter), counter + (if r.value.escaped then 1 else 0))
      ensures loopFlag && FirstPublished(search, frames, space, c).Some? ==>
                |results| > |old(results)| && results[|old(results)|] == FirstPublished(search, frames, space, c).value
    {
      var i := 0;
      ghost var first := FirstPublished(search, frames, space, c);
      while loopFlag && i < |frames|
        invariant 0 <= i <= |frames|
        invariant counter == old(counter) + i
        invariant old(results) <= results && |results| <= |old(results)| + i
        invariant search.None? ==> results == old(results) && saved == old(saved) + PeriodicEvidence(space, old(counter), counter)
        invariant !loopFlag ==> i == 0 && saved == old(saved)
        invariant i > 0 && first.Some? ==> |results| > |old(results)| && results[|old(results)|] == first.value
      {
        ghost var counterBefore, savedBefore := counter, saved;
        var step := Step(frames[i], keys[i], c);
        if step.Failure? {
          return Failure(step.error);
        }
        if search.None? {
          QuietFrameEvidence(space, old(counter), counterBefore, old(saved), savedBefore, saved);
        }
        if step.value {
          return Success(LoopEnd(i, true));
        }
        i := i + 1;
      }
      r := Success(LoopEnd(i, false));
    }

    /** The first half of `__search`: the request is placed in the slot. */
    method Publish(func: string, target: string, box: Option<Box>)
      modifies this`search
      ensures search == Some(SearchObject(func, target, box))
    {
      search := Some(SearchObject(func, target, box));
    }

    /**
     * The second half of `__search`: the head of the result queue is taken and the
     * slot cleared; with the queue empty the wait times out and the slot keeps the
     * request.
     */
    method Await() returns (r: Result<string, ProcError>)
      modifies this`search, this`results
      ensures old(results) != [] ==> r == Success(old(results)[0]) && results == old(results)[1..] && search == None
      ensures old(results) == [] ==> r == Failure(Timeout) && results == [] && search == old(search)
    {
      if results == [] {
        return Failure(Timeout);
      }
      r := Success(results[0]);
      results := results[1..];
      search := None;
    }

    /**
     * `__search(func, target, box)`: publish, let the loop thread handle `frames`,
     * then wait. A result left in the queue by an earlier, timed-out request is
     * what this call receives.
     */
    method Search(func: string, target: string, box: Option<Box>, frames: seq<Image>, keys: seq<int>, c: Collaborators)
      returns (r: Result<string, ProcError>)
      requires |keys| == |frames|
      modifies this`search, this`results, this`counter, this`saved, this`running
      ensures r.Failure? ==> r.error == Timeout && search == Some(SearchObject(func, target, box)) && results == []
      ensures r.Success? ==> search == None
      ensures old(results) == [] && frames == [] ==> r == Failure(Timeout)
      ensures old(results) != [] ==> r == Success(old(results)[0])
      ensures !old(running) ==> !running && counter == old(counter) && saved == old(saved)
      ensures old(results) == [] && !old(running) ==> r == Failure(Timeout)
      ensures old(results) == [] && old(running) && loopFlag && |frames| > 0 ==>
                var first := Serve(SearchObject(func, target, box), frames[0], space, c);
                first.Success? && first.value.published.Some? ==> r == Success(first.value.published.value)
    {
      Publish(func, target, box);
      if running {
        var ran := MainLoop(frames, keys, c);
      }
      r := Await();
    }

    /** `capture_image(filename)`. */
    method CaptureImage(filename: string, frames: seq<Image>, keys: seq<int>, c: Collaborators) returns (r: Result<string, ProcError>)
      requires |keys| == |frames|
      modifies this`search, this`results, this`counter, this`saved, this`running
      ensures r.Failure? ==> r.error == Timeout && search == Some(SearchObject(Capture, filename, None)) && results == []
      ensures r.Success? ==> search == None
      ensures old(results) == [] && frames == [] ==> r == Failure(Timeout)
      ensures old(results) != [] ==> r == Success(old(results)[0])
      ensures old(results) == [] && old(running) && loopFlag && |frames| > 0 && "tmp" in space ==>
                var out := PathJoin(space["tmp"], filename);
                c.imwrite(out, frames[0]) && out != "" ==> r == Success(out)
    {
      r := Search(Capture, filename, None, frames, keys, c);
    }

    /** `search_pattern(target, box)`. */
    method SearchPattern(target: string, box: Option<Box>, frames: seq<Image>, keys: seq<int>, c: Collaborators) returns (r: Result<string, ProcError>)
      requires |keys| == |frames|
      modifies this`search, this`results, this`counter, this`saved, this`running
      ensures r.Failure? ==> r.error == Timeout && search == Some(SearchObject(PatternMatch, target, box)) && results == []
      ensures r.Success? ==> search == None
      ensures old(results) == [] && frames == [] ==> r == Failure(Timeout)
      ensures old(results) != [] ==> r == Success(old(results)[0])
      ensures old(results) == [] && old(running) && loopFlag && |frames| > 0 && "tmp" in space ==>
                var found := c.searchPattern(frames[0], target, box, space["tmp"]).0;
                Truthy(found) ==> r == Success(found.value)
    {
      r := Search(PatternMatch, target, box, frames, keys, c);
    }

    /** `search_ocr(box)`: the target is the placeholder 'dummy'. */
    method SearchOcr(box: Option<Box>, frames: seq<Image>, keys: seq<int>, c: Collaborators) returns (r: Result<string, ProcError>)
      requires |keys| == |frames|
      modifies this`search, this`results, this`counter, this`saved, this`running
      ensures r.Failure? ==> r.error == Timeout && search == Some(SearchObject(Ocr, "dummy", box)) && results == []
      ensures r.Success? ==> search == None
      ensures old(results) == [] && frames == [] ==> r == Failure(Timeout)
      ensures old(results) != [] ==> r == Success(old(results)[0])
      ensures old(results) == [] && old(running) && loopFlag && |frames| > 0 && "tmp" in space ==>
                var text := c.imgToString(frames[0], box, space["tmp"]).0;
                Truthy(text) ==> r == Success(text.value)
    {
      r := Search(Ocr, "dummy", box, frames, keys, c);
    }
  }

  /**
   * Once `main_loop` has broken on Escape (or raised) with no request pending, its
   * thread is gone: a later request times out even when the stream still has frames.
   */
  method LoopEndTimesOutLaterSearch(p: MinicapProc, frames: seq<Image>, keys: seq<int>, c: Collaborators,
                                    func: string, target: string, box: Option<Box>, more: seq<Image>, moreKeys: seq<int>)
    returns (ended: Result<LoopEnd, ProcError>, r: Result<string, ProcError>)
    requires p.running && p.search == None && p.results == [] && |keys| == |frames| && |moreKeys| == |more|
    modifies p
    ensures ended.Failure? || ended.value.escaped ==> r == Failure(Timeout) && !p.running
  {
    ended := p.MainLoop(frames, keys, c);
    r := p.Search(func, target, box, more, moreKeys, c);
  }

  /**
   * A capture request abandoned by a timeout stays in the slot, so the next frame
   * writes and publishes it again, for nobody.
   */
  method AbandonedCaptureServicedAgain(p: MinicapProc, filename: string, frame: Image, c: Collaborators)
    returns (late: Result<bool, ProcError>)
    requires p.results == [] && p.search == None && "tmp" in p.space
    requires c.imwrite(PathJoin(p.space["tmp"], filename), frame)
    requires PathJoin(p.space["tmp"], filename) != ""
    modifies p
    ensures late.Success? && p.search == Some(SearchObject(Capture, filename, None))
    ensures p.results == [PathJoin(old(p.space)["tmp"], filename)]
  {
    var timedOut := p.CaptureImage(filename, [], [], c);
    late := p.Step(frame, 0, c);
  }

  /** As written, a pattern-match request never yields a result: the loop thread dies on the first frame. */
  method PatternMatchEndsLoop(p: MinicapProc, target: string, frame: Image, c: Collaborators)
    returns (r: Result<bool, ProcError>)
    requires p.results == []
    modifies p
    ensures r == Failure(NameError("Picture")) && p.results == []
  {
    p.Publish(PatternMatch, target, None);
    r := p.StepAsWritten(frame, 0, c);
  }
}
