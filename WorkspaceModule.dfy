/**
 * The workspace directory helper of yorha/workspace/module.py, over an in-memory
 * file system.
 *
 * A path is a list of components. An argument path is absolute or relative (the
 * empty relative path is the empty string, which never exists); the process's
 * working directory `cwd` resolves relative ones. `FileSystem` models the `os` /
 * `shutil` calls the module makes, `Workspace` the module's operations.
 */
module WorkspaceModule {
  import opened Wrappers
  import Strings

  type Path = seq<string>

  /** A path as the caller wrote it. */
  datatype PathArg = Abs(parts: Path) | Rel(parts: Path)

  /** The empty string. */
  const Empty: PathArg := Rel([])

  /** An argument that must be a string. */
  datatype Arg = Str(path: PathArg) | NotAString

  datatype OsErrorKind = FileNotFound | FileExists | NotADirectory | IsADirectory | PermissionDenied

  /** The exceptions that leave the modelled operations. */
  datatype WsError = WorkspaceError(message: string) | OsError(kind: OsErrorKind) | RecursionError

  const InitVacantMessage := "It must be vacant folder in the path."
  const MkdirVacantMessage := "it must be vacant folder in the path."

  function Resolve(cwd: Path, a: PathArg): Path {
    match a
    case Abs(p) => p
    case Rel(p) => cwd + p
  }

  /** `os.path.join(base, name)`: an absolute `name` replaces `base`. */
  function JoinPath(base: PathArg, name: PathArg): (r: PathArg)
    ensures name.Abs? ==> r == name
    ensures name.Rel? ==> r.parts == base.parts + name.parts && (r.Abs? <==> base.Abs?)
  {
    if name.Abs? then name else base.(parts := base.parts + name.parts)
  }

  /** The text of a path, as it appears in messages. */
  function PathText(a: PathArg): string {
    match a
    case Abs(p) => "/" + Strings.Join(p, "/")
    case Rel(p) => Strings.Join(p, "/")
  }

  function CouldNotRemove(a: PathArg): string {
    "Could not remove file " + PathText(a) + ". Please Check File Permission."
  }

  // ---------------------------------------------------------------------------
  // Shapes of path sets

  /** `p` and every directory above it. */
  function Ancestry(p: Path): set<Path> {
    set j | 0 <= j <= |p| :: p[..j]
  }

  /** `q` lies strictly inside the directory `t`. */
  predicate Below(t: Path, q: Path) {
    |t| < |q| && q[..|t|] == t
  }

  /** `q` is `t` or lies inside it. */
  predicate InSubtree(t: Path, q: Path) {
    |t| <= |q| && q[..|t|] == t
  }

  predicate IsChild(t: Path, q: Path) {
    |q| == |t| + 1 && q[..|t|] == t
  }

  /** `s` without what lies strictly inside `t`. */
  function Prune(s: set<Path>, t: Path): set<Path> {
    set q | q in s && !Below(t, q)
  }

  /** `s` without `t` and what lies inside it. */
  function RemoveSubtree(s: set<Path>, t: Path): set<Path> {
    set q | q in s && !InSubtree(t, q)
  }

  /** Some directory above `p` is a file. */
  predicate FileAbove(files: set<Path>, p: Path) {
    exists j | 0 <= j < |p| :: p[..j] in files
  }

  predicate HasFileChild(files: set<Path>, t: Path) {
    exists q | q in files :: IsChild(t, q)
  }

  /** `os.path.exists(a)`. */
  predicate ExistsIn(dirs: set<Path>, files: set<Path>, cwd: Path, a: PathArg) {
    a != Empty && (Resolve(cwd, a) in dirs || Resolve(cwd, a) in files)
  }

  /**
   * `_mkdir_recursive(a)` never ends: `a` is relative and none of the relative
   * directories it climbs through exists, so it reaches '', whose `dirname` is ''
   * again and never exists.
   */
  predicate EndlessRecursion(dirs: set<Path>, files: set<Path>, cwd: Path, a: PathArg) {
    a.Rel? && forall j | 1 <= j < |a.parts| :: !ExistsIn(dirs, files, cwd, Rel(a.parts[..j]))
  }

  /** Climbing from a missing path below an existing `host` stops at `host` at the latest. */
  lemma NoEndlessRecursionBelow(dirs: set<Path>, files: set<Path>, cwd: Path, host: PathArg, name: PathArg)
    requires ExistsIn(dirs, files, cwd, host)
    ensures var path := JoinPath(host, name);
            !ExistsIn(dirs, files, cwd, path) ==> !EndlessRecursion(dirs, files, cwd, path)
  {
    var path := JoinPath(host, name);
    if path.Rel? && !ExistsIn(dirs, files, cwd, path) {
      assert name.parts == [] ==> path.parts == host.parts + [] == host.parts;
      var j := |host.parts|;
      assert Rel(path.parts[..j]) == host;
    }
  }

  /** A well-formed tree: the root is a directory, and everything else sits in a directory. */
  predicate Closed(dirs: set<Path>, files: set<Path>) {
    && [] in dirs
    && dirs !! files
    && (forall q | q in dirs && q != [] :: q[..|q| - 1] in dirs)
    && (forall q | q in files :: q != [] && q[..|q| - 1] in dirs)
  }

  /** Every directory above an existing path is a directory. */
  lemma {:induction false} AncestorsAreDirs(dirs: set<Path>, files: set<Path>, q: Path)
    requires Closed(dirs, files)
    requires q in dirs || q in files
    ensures forall j | 0 <= j < |q| :: q[..j] in dirs
    ensures !FileAbove(files, q)
    decreases |q|
  {
    if q != [] {
      var parent := q[..|q| - 1];
      AncestorsAreDirs(dirs, files, parent);
      forall j | 0 <= j < |q| ensures q[..j] in dirs {
        if j < |q| - 1 {
          assert q[..j] == parent[..j];
        }
      }
    }
  }

  /** A file sits above `p` iff one sits above its parent or the parent is a file. */
  lemma FileAboveStep(files: set<Path>, p: Path)
    requires p != []
    ensures FileAbove(files, p) <==> FileAbove(files, p[..|p| - 1]) || p[..|p| - 1] in files
  {
    var parent := p[..|p| - 1];
    if FileAbove(files, p) {
      var j :| 0 <= j < |p| && p[..j] in files;
      if j < |p| - 1 {
        assert p[..j] == parent[..j];
      }
    }
    if FileAbove(files, parent) {
      var j :| 0 <= j < |parent| && parent[..j] in files;
      assert p[..j] == parent[..j];
    }
  }

  lemma AncestryOfDir(dirs: set<Path>, files: set<Path>, p: Path)
    requires Closed(dirs, files) && p in dirs
    ensures Ancestry(p) <= dirs
  {
    AncestorsAreDirs(dirs, files, p);
    assert p[..|p|] == p;
  }

  /** The child of `t` on the way down to an existing `q` below it exists. */
  lemma ChildOnTheWay(dirs: set<Path>, files: set<Path>, t: Path, q: Path)
    requires Closed(dirs, files)
    requires (q in dirs || q in files) && Below(t, q)
    ensures q[..|t| + 1] in dirs + files && IsChild(t, q[..|t| + 1])
  {
    AncestorsAreDirs(dirs, files, q);
    assert q[..|q|] == q;
    assert q[..|t| + 1][..|t|] == t;
  }

  lemma AncestryStep(p: Path)
    requires p != []
    ensures Ancestry(p) == Ancestry(p[..|p| - 1]) + {p}
  {
    var parent := p[..|p| - 1];
    forall q | q in Ancestry(p) ensures q in Ancestry(parent) + {p} {
      var j :| 0 <= j <= |p| && q == p[..j];
      if j < |p| {
        assert q == parent[..j];
      } else {
        assert q == p;
      }
    }
    forall q | q in Ancestry(parent) ensures q in Ancestry(p) {
      var j :| 0 <= j <= |parent| && q == parent[..j];
      assert q == p[..j];
    }
    assert p == p[..|p|];
  }

  /** Nothing exists strictly inside a path that does not exist. */
  lemma NothingBelowMissing(dirs: set<Path>, files: set<Path>, t: Path)
    requires Closed(dirs, files)
    requires t !in dirs && t !in files
    ensures Prune(dirs, t) == dirs && Prune(files, t) == files
    ensures !HasFileChild(files, t)
  {
    forall q | (q in dirs || q in files) && Below(t, q) ensures q[..|t|] in dirs {
      AncestorsAreDirs(dirs, files, q);
    }
    forall q | InSubtree(t, q) && !Below(t, q) ensures q == t {
      assert q == q[..|t|];
    }
  }

  /** Removing the subtree of a path that did not exist takes back only that path. */
  lemma RemoveFreshLeaf(dirs: set<Path>, files: set<Path>, t: Path)
    requires Closed(dirs, files)
    requires t !in dirs && t !in files
    ensures RemoveSubtree(dirs + {t}, t) == dirs && RemoveSubtree(files, t) == files
  {
    forall q | (q in dirs || q in files) && Below(t, q) ensures q[..|t|] in dirs {
      AncestorsAreDirs(dirs, files, q);
    }
    forall q | InSubtree(t, q) && !Below(t, q) ensures q == t {
      assert q == q[..|t|];
    }
  }

  // ---------------------------------------------------------------------------
  // The file system

  /** The directories and files that exist, and the `os` / `shutil` calls on them. */
  class FileSystem {
    var dirs: set<Path>
    var files: set<Path>

    predicate Valid()
      reads this
    {
      Closed(dirs, files)
    }

    constructor ()
      ensures Valid() && dirs == {[]} && files == {}
    {
      dirs := {[]};
      files := {};
    }

    /** `os.listdir(t)` for a directory `t`, as full paths. */
    function Children(t: Path): set<Path>
      reads this
    {
      set q | q in dirs + files && IsChild(t, q)
    }

    /** `os.mkdir(p)`. */
    method MakeDir(p: Path) returns (r: Result<(), WsError>)
      requires Valid()
      modifies this
      ensures Valid() && files == old(files)
      ensures p in old(dirs) || p in old(files) ==> r == Failure(OsError(FileExists)) && unchanged(this)
      ensures p !in old(dirs) && p !in old(files) ==>
                && p != []
                && (p[..|p| - 1] in old(files) ==> r == Failure(OsError(NotADirectory)) && unchanged(this))
                && (p[..|p| - 1] !in old(files) && p[..|p| - 1] !in old(dirs) ==>
                      r == Failure(OsError(FileNotFound)) && unchanged(this))
                && (p[..|p| - 1] in old(dirs) ==> r == Success(()) && dirs == old(dirs) + {p})
    {
      if p in dirs || p in files {
        return Failure(OsError(FileExists));
      }
      var parent := p[..|p| - 1];
      if parent in files {
        return Failure(OsError(NotADirectory));
      }
      if parent !in dirs {
        return Failure(OsError(FileNotFound));
      }
      dirs := dirs + {p};
      return Success(());
    }

    /** `shutil.rmtree(p)`. */
    method RemoveTree(p: Path) returns (r: Result<(), WsError>)
      requires Valid()
      modifies this
      ensures Valid()
      ensures p !in old(dirs) && p !in old(files) ==> r == Failure(OsError(FileNotFound)) && unchanged(this)
      ensures p in old(files) ==> r == Failure(OsError(NotADirectory)) && unchanged(this)
      ensures p == [] ==> r == Failure(OsError(PermissionDenied)) && unchanged(this)
      ensures p in old(dirs) && p != [] ==>
                r == Success(()) && dirs == RemoveSubtree(old(dirs), p) && files == RemoveSubtree(old(files), p)
    {
      if p !in dirs && p !in files {
        return Failure(OsError(FileNotFound));
      }
      if p in files {
        return Failure(OsError(NotADirectory));
      }
      if p == [] {
        return Failure(OsError(PermissionDenied));
      }
      dirs := RemoveSubtree(dirs, p);
      files := RemoveSubtree(files, p);
      return Success(());
    }

    /** `open(p, 'a')` on a path that does not exist yet. */
    method CreateFile(p: Path) returns (r: Result<(), WsError>)
      requires Valid()
      requires p !in dirs && p !in files
      modifies this
      ensures Valid() && dirs == old(dirs)
      ensures p != []
      ensures p[..|p| - 1] in old(dirs) ==> r == Success(()) && files == old(files) + {p}
      ensures p[..|p| - 1] in old(files) ==> r == Failure(OsError(NotADirectory)) && unchanged(this)
      ensures p[..|p| - 1] !in old(dirs) && p[..|p| - 1] !in old(files) ==>
                r == Failure(OsError(FileNotFound)) && unchanged(this)
    {
      var parent := p[..|p| - 1];
      if parent in files {
        return Failure(OsError(NotADirectory));
      }
      if parent !in dirs {
        return Failure(OsError(FileNotFound));
      }
      files := files + {p};
      return Success(());
    }

    /** `os.remove(p)` on a path that exists. */
    method RemoveFile(p: Path) returns (r: Result<(), WsError>)
      requires Valid()
      requires p in dirs || p in files
      modifies this
      ensures Valid() && dirs == old(dirs)
      ensures p in old(dirs) ==> r == Failure(OsError(IsADirectory)) && unchanged(this)
      ensures p in old(files) ==> r == Success(()) && files == old(files) - {p}
    {
      if p in dirs {
        return Failure(OsError(IsADirectory));
      }
      files := files - {p};
      return Success(());
    }
  }

  // ---------------------------------------------------------------------------
  // The workspace

  class Workspace {
    const fs: FileSystem
    const cwd: Path
    const defaultPath: Path

    constructor (fs: FileSystem, cwd: Path, defaultPath: Path)
      ensures this.fs == fs && this.cwd == cwd && this.defaultPath == defaultPath
    {
      this.fs := fs;
      this.cwd := cwd;
      this.defaultPath := defaultPath;
    }

    /**
     * `Workspace(path, clear)`, as written: an existing, non-empty directory is
     * emptied when `clear` is set; an existing, empty one is passed to
     * `_mkdir_recursive`, which finds nothing to do; a missing path is not created.
     */
    static method Create(fs: FileSystem, cwd: Path, path: Arg, clear: bool) returns (r: Result<Workspace, WsError>)
      requires fs.Valid()
      modifies fs
      ensures fs.Valid()
      ensures r.Success? ==>
                && fresh(r.value) && path.Str? && r.value.fs == fs && r.value.cwd == cwd
                && r.value.defaultPath == Resolve(cwd, path.path)
      ensures path.NotAString? ==> r == Failure(WorkspaceError("path must be strings.")) && unchanged(fs)
      ensures path.Str? ==>
                var root := Resolve(cwd, path.path);
                var existed := ExistsIn(old(fs.dirs), old(fs.files), cwd, path.path);
                && (!existed ==> r.Success? && unchanged(fs))
                && (!existed && path.path != Empty ==> root !in fs.dirs)
                && (existed && root in old(fs.files) ==> r == Failure(OsError(NotADirectory)) && unchanged(fs))
                && (existed && root in old(fs.dirs) ==>
                      && (r.Failure? <==> clear && HasFileChild(old(fs.files), root))
                      && (r.Failure? ==> r.error == WorkspaceError(InitVacantMessage))
                      && (r.Success? ==>
                            && fs.dirs == (if clear then Prune(old(fs.dirs), root) else old(fs.dirs))
                            && fs.files == (if clear then Prune(old(fs.files), root) else old(fs.files))))
    {
      if path.NotAString? {
        return Failure(WorkspaceError("path must be strings."));
      }
      var root := Resolve(cwd, path.path);
      var w := new Workspace(fs, cwd, root);
      if w.Exists(path.path) {
        r := w.Populated(path.path, clear);
      } else {
        r := Success(w);
      }
    }

    /**
     * `Workspace(path, clear)` with the `else` on the `os.path.exists` test: a
     * missing path is created with the directories above it, which is the only
     * case in which the `_mkdir_recursive` call has anything to do.
     */
    static method CreateFixed(fs: FileSystem, cwd: Path, path: Arg, clear: bool) returns (r: Result<Workspace, WsError>)
      requires fs.Valid()
      modifies fs
      ensures fs.Valid()
      ensures r.Success? ==>
                && fresh(r.value) && path.Str? && r.value.fs == fs && r.value.cwd == cwd
                && r.value.defaultPath == Resolve(cwd, path.path)
      ensures path.NotAString? ==> r == Failure(WorkspaceError("path must be strings.")) && unchanged(fs)
      ensures path.Str? ==>
                var root := Resolve(cwd, path.path);
                var existed := ExistsIn(old(fs.dirs), old(fs.files), cwd, path.path);
                && (!existed ==>
                      && (r.Success? <==> !FileAbove(old(fs.files), root))
                      && (r.Failure? ==> r.error == OsError(NotADirectory) && unchanged(fs))
                      && (r.Success? ==>
                            && fs.files == old(fs.files)
                            && fs.dirs == old(fs.dirs) + (if root in old(fs.files) then {} else Ancestry(root))))
                && (!existed && root !in old(fs.files) && r.Success? ==> root in fs.dirs)
                && (existed && root in old(fs.files) ==> r == Failure(OsError(NotADirectory)) && unchanged(fs))
                && (existed && root in old(fs.dirs) ==>
                      && (r.Failure? <==> clear && HasFileChild(old(fs.files), root))
                      && (r.Failure? ==> r.error == WorkspaceError(InitVacantMessage))
                      && (r.Success? ==>
                            && fs.dirs == (if clear then Prune(old(fs.dirs), root) else old(fs.dirs))
                            && fs.files == (if clear then Prune(old(fs.files), root) else old(fs.files))))
    {
      if path.NotAString? {
        return Failure(WorkspaceError("path must be strings."));
      }
      var root := Resolve(cwd, path.path);
      var w := new Workspace(fs, cwd, root);
      if w.Exists(path.path) {
        r := w.Populated(path.path, clear);
      } else {
        var made := w.MkdirRecursive(w.Root());
        if made.Failure? {
          return Failure(made.error);
        }
        assert root !in old(fs.files) ==> root in Ancestry(root) by { assert root == root[..|root|]; }
        r := Success(w);
      }
    }

    /** The constructor's handling of a `path` that exists: the body of `if os.path.exists(path)`. */
    method Populated(path: PathArg, clear: bool) returns (r: Result<Workspace, WsError>)
      requires fs.Valid() && Exists(path) && Resolve(cwd, path) == defaultPath
      modifies fs
      ensures fs.Valid()
      ensures r.Success? ==> r.value == this
      ensures defaultPath in old(fs.files) ==> r == Failure(OsError(NotADirectory)) && unchanged(fs)
      ensures defaultPath in old(fs.dirs) ==>
                && (r.Failure? <==> clear && HasFileChild(old(fs.files), defaultPath))
                && (r.Failure? ==> r.error == WorkspaceError(InitVacantMessage))
                && (r.Success? ==>
                      && fs.dirs == (if clear then Prune(old(fs.dirs), defaultPath) else old(fs.dirs))
                      && fs.files == (if clear then Prune(old(fs.files), defaultPath) else old(fs.files)))
    {
      var root := defaultPath;
      if root in fs.files {
        // os.listdir on a file
        return Failure(OsError(NotADirectory));
      }
      if fs.Children(root) != {} {
        if clear {
          var cleared := ClearChildren(root, InitVacantMessage);
          if cleared.Failure? {
            return Failure(cleared.error);
          }
        }
      } else {
        assert !HasFileChild(fs.files, root) by {
          forall q | q in fs.files && IsChild(root, q) ensures q in fs.Children(root) { }
        }
        assert Prune(fs.dirs, root) == fs.dirs && Prune(fs.files, root) == fs.files by {
          forall q | (q in fs.dirs || q in fs.files) && Below(root, q) ensures q[..|root| + 1] in fs.Children(root) {
            ChildOnTheWay(fs.dirs, fs.files, root, q);
          }
        }
        AncestryOfDir(fs.dirs, fs.files, root);
        var made := MkdirRecursive(Root());
      }
      return Success(this);
    }

    /** `os.path.exists(a)` now. */
    predicate Exists(a: PathArg)
      reads fs
    {
      ExistsIn(fs.dirs, fs.files, cwd, a)
    }

    /** `root()`. */
    function Root(): (r: PathArg)
      ensures r.Abs? && r.parts == defaultPath
    {
      Abs(defaultPath)
    }

    /**
     * `_mkdir_recursive(a)`: climbs with `dirname` while the parent does not exist,
     * then creates the directories on the way back. It creates `a` and the missing
     * directories above it, unless a file sits above `a` (`os.mkdir` then fails
     * before anything is created) or the climb never ends.
     */
    method MkdirRecursive(a: PathArg) returns (r: Result<(), WsError>)
      requires fs.Valid()
      modifies fs
      ensures fs.Valid()
      ensures EndlessRecursion(old(fs.dirs), old(fs.files), cwd, a) ==>
                r == Failure(RecursionError) && unchanged(fs)
      ensures !EndlessRecursion(old(fs.dirs), old(fs.files), cwd, a) ==>
                var p := Resolve(cwd, a);
                && (FileAbove(old(fs.files), p) ==> r == Failure(OsError(NotADirectory)) && unchanged(fs))
                && (!FileAbove(old(fs.files), p) ==>
                      && r == Success(()) && fs.files == old(fs.files)
                      && fs.dirs == old(fs.dirs) + (if p in old(fs.files) then {} else Ancestry(p)))
      decreases |a.parts|, 1
    {
      if a == Empty {
        return Failure(RecursionError);
      }
      if a == Abs([]) {
        AncestryOfDir(fs.dirs, fs.files, []);
        return Success(());
      }
      var sub := a.(parts := a.parts[..|a.parts| - 1]);
      if !Exists(sub) {
        r := MkdirClimb(a);
      } else {
        r := MkdirUnderExisting(a);
      }
    }

    /** `_mkdir_recursive(a)` when the parent of `a` is missing: climb to it, then create `a`. */
    method MkdirClimb(a: PathArg) returns (r: Result<(), WsError>)
      requires fs.Valid() && a != Empty && a != Abs([])
      requires !Exists(a.(parts := a.parts[..|a.parts| - 1]))
      modifies fs
      ensures fs.Valid()
      ensures EndlessRecursion(old(fs.dirs), old(fs.files), cwd, a) ==>
                r == Failure(RecursionError) && unchanged(fs)
      ensures !EndlessRecursion(old(fs.dirs), old(fs.files), cwd, a) ==>
                var p := Resolve(cwd, a);
                && (FileAbove(old(fs.files), p) ==> r == Failure(OsError(NotADirectory)) && unchanged(fs))
                && (!FileAbove(old(fs.files), p) ==>
                      && r == Success(()) && fs.files == old(fs.files)
                      && fs.dirs == old(fs.dirs) + (if p in old(fs.files) then {} else Ancestry(p)))
      decreases |a.parts|, 0
    {
      var p := Resolve(cwd, a);
      var sub := a.(parts := a.parts[..|a.parts| - 1]);
      var pSub := Resolve(cwd, sub);
      assert pSub == p[..|p| - 1];
      ghost var dirs0, files0 := fs.dirs, fs.files;
      assert EndlessRecursion(dirs0, files0, cwd, a) <==> EndlessRecursion(dirs0, files0, cwd, sub) by {
        if a.Rel? {
          assert forall j | 1 <= j < |sub.parts| :: sub.parts[..j] == a.parts[..j];
        }
      }
      r := MkdirRecursive(sub);
      if r.Failure? {
        if !EndlessRecursion(dirs0, files0, cwd, a) {
          assert sub != Empty;
          FileAboveStep(files0, p);
        }
        return;
      }
      assert pSub !in files0;
      FileAboveStep(files0, p);
      assert p !in dirs0 && p !in files0 by {
        if p in dirs0 || p in files0 {
          AncestorsAreDirs(dirs0, files0, p);
        }
      }
      assert pSub in Ancestry(pSub) by { assert pSub == pSub[..|pSub|]; }
      r := fs.MakeDir(p);
      AncestryStep(p);
    }

    /** `_mkdir_recursive(a)` when the parent of `a` exists: the climb stops at once. */
    method MkdirUnderExisting(a: PathArg) returns (r: Result<(), WsError>)
      requires fs.Valid() && a != Empty && a != Abs([])
      requires Exists(a.(parts := a.parts[..|a.parts| - 1]))
      modifies fs
      ensures fs.Valid()
      ensures !EndlessRecursion(old(fs.dirs), old(fs.files), cwd, a)
      ensures var p := Resolve(cwd, a);
              && (FileAbove(old(fs.files), p) ==> r == Failure(OsError(NotADirectory)) && unchanged(fs))
              && (!FileAbove(old(fs.files), p) ==>
                    && r == Success(()) && fs.files == old(fs.files)
                    && fs.dirs == old(fs.dirs) + (if p in old(fs.files) then {} else Ancestry(p)))
    {
      var p := Resolve(cwd, a);
      var sub := a.(parts := a.parts[..|a.parts| - 1]);
      var pSub := Resolve(cwd, sub);
      assert pSub == p[..|p| - 1];
      ghost var dirs0, files0 := fs.dirs, fs.files;
      assert !EndlessRecursion(dirs0, files0, cwd, a) by {
        if a.Rel? {
          assert a.parts[..|a.parts| - 1] == sub.parts;
        }
      }
      FileAboveStep(files0, p);
      if pSub in fs.files {
        assert p !in dirs0 && p !in files0;
        r := fs.MakeDir(p);
        return;
      }
      AncestorsAreDirs(dirs0, files0, pSub);
      if !Exists(a) {
        assert p !in dirs0 && p !in files0;
        r := fs.MakeDir(p);
        AncestryStep(p);
        AncestryOfDir(dirs0, files0, pSub);
      } else {
        if p in dirs0 {
          AncestryOfDir(dirs0, files0, p);
        }
        r := Success(());
      }
    }

    /**
     * `_mkdir_recursive(os.path.abspath(a))`: climbing from the absolute form always
     * ends at '/', so a relative `a` is created under the working directory.
     */
    method MkdirRecursiveAbsolute(a: PathArg) returns (r: Result<(), WsError>)
      requires fs.Valid()
      modifies fs
      ensures fs.Valid()
      ensures var p := Resolve(cwd, a);
              && (FileAbove(old(fs.files), p) ==> r == Failure(OsError(NotADirectory)) && unchanged(fs))
              && (!FileAbove(old(fs.files), p) ==>
                    && r == Success(()) && fs.files == old(fs.files)
                    && fs.dirs == old(fs.dirs) + (if p in old(fs.files) then {} else Ancestry(p)))
    {
      r := MkdirRecursive(Abs(Resolve(cwd, a)));
    }

    /**
     * The loop `for f in os.listdir(t): shutil.rmtree(os.path.join(t, f))` with its
     * `except`: every child is removed with all it holds, in whatever order the
     * listing gives; a child that is a file makes `rmtree` fail, which is reported
     * as `message`.
     */
    method ClearChildren(t: Path, message: string) returns (r: Result<(), WsError>)
      requires fs.Valid() && t in fs.dirs
      modifies fs
      ensures fs.Valid()
      ensures r.Failure? <==> HasFileChild(old(fs.files), t)
      ensures r.Failure? ==> r.error == WorkspaceError(message)
      ensures r.Success? ==> fs.dirs == Prune(old(fs.dirs), t) && fs.files == Prune(old(fs.files), t)
      ensures r.Failure? ==> Prune(old(fs.files), t) <= fs.files <= old(fs.files)
    {
      ghost var dirs0, files0 := fs.dirs, fs.files;
      var kids := fs.Children(t);
      var left := kids;
      forall q | (q in dirs0 || q in files0) && Below(t, q) ensures q[..|t| + 1] in kids {
        ChildOnTheWay(dirs0, files0, t, q);
      }
      while left != {}
        invariant fs.Valid() && t in fs.dirs
        invariant left <= kids
        invariant forall q :: q in fs.dirs <==> q in dirs0 && (!Below(t, q) || q[..|t| + 1] in left)
        invariant forall q :: q in fs.files <==> q in files0 && (!Below(t, q) || q[..|t| + 1] in left)
        invariant forall c | c in kids && c !in left :: c !in files0
        decreases left
      {
        var c :| c in left;
        assert IsChild(t, c) && (c in dirs0 || c in files0);
        assert c[..|t| + 1] == c;
        var removed := fs.RemoveTree(c);
        if removed.Failure? {
          assert IsChild(t, c) && c in files0;
          return Failure(WorkspaceError(message));
        }
        forall q ensures InSubtree(c, q) <==> Below(t, q) && q[..|t| + 1] == c {
          if InSubtree(c, q) {
            assert q[..|t|] == c[..|t|];
            assert q[..|t| + 1] == c;
          }
        }
        left := left - {c};
      }
      assert forall q | q in files0 :: IsChild(t, q) ==> q in kids;
      r := Success(());
    }

    /**
     * `mkdir(folder, host, clear)`: the target is `root()/folder`, or `host/folder`
     * after creating `host` when it is missing. A missing target is created with the
     * directories above it; an existing, non-empty one is emptied when `clear` is set.
     */
    method Mkdir(folder: Arg, host: PathArg, clear: bool) returns (r: Result<PathArg, WsError>)
      requires fs.Valid()
      modifies fs
      ensures fs.Valid()
      ensures folder.NotAString? ==> r == Failure(WorkspaceError("folder must be strings.")) && unchanged(fs)
      ensures folder.Str? ==>
                var target := if host == Empty then JoinPath(Root(), folder.path) else JoinPath(host, folder.path);
                var t := Resolve(cwd, target);
                var h := Resolve(cwd, host);
                var hostMade := host != Empty && !ExistsIn(old(fs.dirs), old(fs.files), cwd, host);
                var grown := old(fs.dirs) + (if hostMade then Ancestry(h) else {}) + Ancestry(t);
                && (r.Failure? <==>
                      || (hostMade && (EndlessRecursion(old(fs.dirs), old(fs.files), cwd, host) || FileAbove(old(fs.files), h)))
                      || t in old(fs.files) || FileAbove(old(fs.files), t)
                      || (clear && HasFileChild(old(fs.files), t)))
                && (hostMade && EndlessRecursion(old(fs.dirs), old(fs.files), cwd, host) ==>
                      r == Failure(RecursionError) && unchanged(fs))
                && (r.Failure? ==>
                      r.error in {OsError(NotADirectory), RecursionError, WorkspaceError(MkdirVacantMessage)})
                && (r.Success? ==>
                      && r.value == target && t in fs.dirs
                      && fs.dirs == (if clear then Prune(grown, t) else grown)
                      && fs.files == (if clear then Prune(old(fs.files), t) else old(fs.files)))
    {
      if folder.NotAString? {
        return Failure(WorkspaceError("folder must be strings."));
      }
      var path: PathArg;
      if host == Empty {
        path := JoinPath(Root(), folder.path);
      } else {
        if !Exists(host) {
          var made := MkdirRecursive(host);
          if made.Failure? {
            return Failure(made.error);
          }
          assert Resolve(cwd, host) in Ancestry(Resolve(cwd, host)) by {
            var h := Resolve(cwd, host);
            assert h == h[..|h|];
          }
        }
        assert Exists(host);
        path := JoinPath(host, folder.path);
        NoEndlessRecursionBelow(fs.dirs, fs.files, cwd, host, folder.path);
      }
      r := MkdirTarget(path, clear);
    }

    /**
     * The second half of `mkdir`: `path` is created with the directories above it
     * when missing, and emptied when it exists, is not empty and `clear` is set.
     */
    method MkdirTarget(path: PathArg, clear: bool) returns (r: Result<PathArg, WsError>)
      requires fs.Valid() && path != Empty
      requires !Exists(path) ==> !EndlessRecursion(fs.dirs, fs.files, cwd, path)
      modifies fs
      ensures fs.Valid()
      ensures var t := Resolve(cwd, path);
              && (r.Failure? <==>
                    t in old(fs.files) || FileAbove(old(fs.files), t) || (clear && HasFileChild(old(fs.files), t)))
              && (r.Failure? ==> r.error in {OsError(NotADirectory), WorkspaceError(MkdirVacantMessage)})
              && (r.Success? ==>
                    && r.value == path && t in fs.dirs
                    && fs.dirs == (if clear then Prune(old(fs.dirs) + Ancestry(t), t) else old(fs.dirs) + Ancestry(t))
                    && fs.files == (if clear then Prune(old(fs.files), t) else old(fs.files)))
    {
      var t := Resolve(cwd, path);
      if Exists(path) {
        if t in fs.files {
          // os.listdir on a file
          return Failure(OsError(NotADirectory));
        }
        AncestryOfDir(fs.dirs, fs.files, t);
        if fs.Children(t) != {} {
          if clear {
            var cleared := ClearChildren(t, MkdirVacantMessage);
            if cleared.Failure? {
              return Failure(cleared.error);
            }
          }
        } else {
          assert !HasFileChild(fs.files, t) by {
            forall q | q in fs.files && IsChild(t, q) ensures q in fs.Children(t) { }
          }
          assert Prune(fs.dirs, t) == fs.dirs && Prune(fs.files, t) == fs.files by {
            forall q | (q in fs.dirs || q in fs.files) && Below(t, q) ensures q[..|t| + 1] in fs.Children(t) {
              ChildOnTheWay(fs.dirs, fs.files, t, q);
            }
          }
        }
      } else {
        NothingBelowMissing(fs.dirs, fs.files, t);
        var made := MkdirRecursive(path);
        if made.Failure? {
          return Failure(made.error);
        }
        assert t in Ancestry(t) by { assert t == t[..|t|]; }
        assert Prune(Ancestry(t), t) == Ancestry(t);
      }
      return Success(path);
    }

    /**
     * `rmdir(folder, host)`: removes `root()/folder` or `host/folder` with all it
     * holds; a missing host or target is returned as is.
     */
    method Rmdir(folder: Arg, host: PathArg) returns (r: Result<PathArg, WsError>)
      requires fs.Valid()
      modifies fs
      ensures fs.Valid()
      ensures folder.NotAString? ==> r == Failure(WorkspaceError("folder must be strings.")) && unchanged(fs)
      ensures folder.Str? && host != Empty && !ExistsIn(old(fs.dirs), old(fs.files), cwd, host) ==>
                r == Success(host) && unchanged(fs)
      ensures folder.Str? && (host == Empty || ExistsIn(old(fs.dirs), old(fs.files), cwd, host)) ==>
                var target := if host == Empty then JoinPath(Root(), folder.path) else JoinPath(host, folder.path);
                var t := Resolve(cwd, target);
                && (!ExistsIn(old(fs.dirs), old(fs.files), cwd, target) ==> r == Success(target) && unchanged(fs))
                && (ExistsIn(old(fs.dirs), old(fs.files), cwd, target) && (t in old(fs.files) || t == []) ==>
                      r == Failure(WorkspaceError(CouldNotRemove(target))) && unchanged(fs))
                && (ExistsIn(old(fs.dirs), old(fs.files), cwd, target) && t in old(fs.dirs) && t != [] ==>
                      && r == Success(target)
                      && fs.dirs == RemoveSubtree(old(fs.dirs), t) && fs.files == RemoveSubtree(old(fs.files), t))
    {
      if folder.NotAString? {
        return Failure(WorkspaceError("folder must be strings."));
      }
      var path: PathArg;
      if host == Empty {
        path := JoinPath(Root(), folder.path);
      } else {
        if !Exists(host) {
          return Success(host);
        }
        path := JoinPath(host, folder.path);
      }
      if !Exists(path) {
        return Success(path);
      }
      var removed := fs.RemoveTree(Resolve(cwd, path));
      if removed.Failure? {
        return Failure(WorkspaceError(CouldNotRemove(path)));
      }
      return Success(path);
    }

    /**
     * `touch(filename, host)`: creates the empty file `root()/filename`, or
     * `mkdir(host)/filename`; an existing path is refused.
     */
    method Touch(filename: Arg, host: PathArg) returns (r: Result<PathArg, WsError>)
      requires fs.Valid()
      modifies fs
      ensures fs.Valid()
      ensures filename.NotAString? ==> r == Failure(WorkspaceError("filename must be strings.")) && unchanged(fs)
      ensures filename.Str? ==>
                var base := if host == Empty then Root() else JoinPath(Root(), host);
                var fp := JoinPath(base, filename.path);
                var f := Resolve(cwd, fp);
                && (f in old(fs.dirs) || f in old(fs.files) ==> r.Failure?)
                && (host == Empty && (f in old(fs.dirs) || f in old(fs.files)) ==>
                      r == Failure(WorkspaceError("it is exists " + PathText(fp) + ".")) && unchanged(fs))
                && (host == Empty ==>
                      (r.Success? <==> f !in old(fs.dirs) && f !in old(fs.files) && f != [] && f[..|f| - 1] in old(fs.dirs)))
                && (r.Success? ==>
                      && r.value == fp && f !in old(fs.files) && fs.files == old(fs.files) + {f}
                      && fs.dirs == old(fs.dirs) + (if host == Empty then {} else Ancestry(Resolve(cwd, base))))
    {
      if filename.NotAString? {
        return Failure(WorkspaceError("filename must be strings."));
      }
      var filepath: PathArg;
      if host == Empty {
        filepath := JoinPath(Root(), filename.path);
      } else {
        var made := Mkdir(Str(host), Empty, false);
        if made.Failure? {
          return Failure(made.error);
        }
        filepath := JoinPath(made.value, filename.path);
      }
      assert filepath != Empty;
      if Exists(filepath) {
        return Failure(WorkspaceError("it is exists " + PathText(filepath) + "."));
      }
      var created := fs.CreateFile(Resolve(cwd, filepath));
      if created.Failure? {
        return Failure(created.error);
      }
      return Success(filepath);
    }

    /** `rm(filepath)`: removes an existing file; a missing path or a directory is refused. */
    method Rm(filepath: Arg) returns (r: Result<PathArg, WsError>)
      requires fs.Valid()
      modifies fs
      ensures fs.Valid() && fs.dirs == old(fs.dirs)
      ensures filepath.NotAString? ==> r == Failure(WorkspaceError("filepath must be strings.")) && unchanged(fs)
      ensures filepath.Str? ==>
                var p := filepath.path;
                var f := Resolve(cwd, p);
                && (!ExistsIn(old(fs.dirs), old(fs.files), cwd, p) ==>
                      r == Failure(WorkspaceError("it is not exists " + PathText(p))) && unchanged(fs))
                && (ExistsIn(old(fs.dirs), old(fs.files), cwd, p) && f in old(fs.dirs) ==>
                      r == Failure(WorkspaceError(CouldNotRemove(p))) && unchanged(fs))
                && (ExistsIn(old(fs.dirs), old(fs.files), cwd, p) && f in old(fs.files) ==>
                      r == Success(p) && fs.files == old(fs.files) - {f})
    {
      if filepath.NotAString? {
        return Failure(WorkspaceError("filepath must be strings."));
      }
      var p := filepath.path;
      if !Exists(p) {
        return Failure(WorkspaceError("it is not exists " + PathText(p)));
      }
      var removed := fs.RemoveFile(Resolve(cwd, p));
      if removed.Failure? {
        return Failure(WorkspaceError(CouldNotRemove(p)));
      }
      return Success(p);
    }
  }

  /**
   * `mkdir('logs', host=name)` for a relative `name` that does not exist yet:
   * `_mkdir_recursive(name)` climbs to '' and never stops, so nothing is created.
   */
  method MissingRelativeHost(w: Workspace, name: string) returns (r: Result<PathArg, WsError>)
    requires w.fs.Valid()
    requires w.cwd + [name] !in w.fs.dirs && w.cwd + [name] !in w.fs.files
    modifies w.fs
    ensures r == Failure(RecursionError)
    ensures unchanged(w.fs)
  {
    r := w.Mkdir(Str(Rel(["logs"])), Rel([name]), false);
  }

  /** The same host through the absolute climb: it is created under the working directory. */
  method MissingRelativeHostCreated(w: Workspace, name: string) returns (r: Result<(), WsError>)
    requires w.fs.Valid() && w.cwd in w.fs.dirs
    requires w.cwd + [name] !in w.fs.dirs && w.cwd + [name] !in w.fs.files
    modifies w.fs
    ensures r == Success(())
    ensures w.cwd + [name] in w.fs.dirs
  {
    AncestorsAreDirs(w.fs.dirs, w.fs.files, w.cwd);
    FileAboveStep(w.fs.files, w.cwd + [name]);
    r := w.MkdirRecursiveAbsolute(Rel([name]));
    ghost var p := w.cwd + [name];
    assert p in Ancestry(p) by { assert p == p[..|p|]; }
  }

  /** `touch(name)` of a fresh name in an existing workspace creates exactly that file. */
  method TouchFresh(w: Workspace, name: string) returns (created: Result<PathArg, WsError>)
    requires w.fs.Valid() && w.defaultPath in w.fs.dirs
    requires w.defaultPath + [name] !in w.fs.dirs && w.defaultPath + [name] !in w.fs.files
    modifies w.fs
    ensures w.fs.Valid()
    ensures created == Success(Abs(w.defaultPath + [name]))
    ensures w.fs.dirs == old(w.fs.dirs) && w.fs.files == old(w.fs.files) + {w.defaultPath + [name]}
  {
    ghost var f := w.defaultPath + [name];
    assert f[..|f| - 1] == w.defaultPath;
    assert JoinPath(w.Root(), Rel([name])) == Abs(f);
    created := w.Touch(Str(Rel([name])), Empty);
  }

  /** `rm` of an absolute path naming an existing file removes exactly that file. */
  method RmFile(w: Workspace, f: Path) returns (removed: Result<PathArg, WsError>)
    requires w.fs.Valid() && f in w.fs.files
    modifies w.fs
    ensures w.fs.Valid()
    ensures removed == Success(Abs(f))
    ensures w.fs.dirs == old(w.fs.dirs) && w.fs.files == old(w.fs.files) - {f}
  {
    assert f !in w.fs.dirs;
    removed := w.Rm(Str(Abs(f)));
  }

  /** `touch(name)` then `rm` of the returned path leaves the workspace as it was. */
  method TouchThenRm(w: Workspace, name: string) returns (created: Result<PathArg, WsError>, removed: Result<PathArg, WsError>)
    requires w.fs.Valid() && w.defaultPath in w.fs.dirs
    requires w.defaultPath + [name] !in w.fs.dirs && w.defaultPath + [name] !in w.fs.files
    modifies w.fs
    ensures created == Success(Abs(w.defaultPath + [name])) && removed == created
    ensures w.fs.dirs == old(w.fs.dirs) && w.fs.files == old(w.fs.files)
  {
    created := TouchFresh(w, name);
    removed := RmFile(w, w.defaultPath + [name]);
    assert w.fs.files == old(w.fs.files) + {w.defaultPath + [name]} - {w.defaultPath + [name]};
  }

  /** `mkdir(name)` then `rmdir(name)` of a new folder leaves the workspace as it was. */
  method MkdirThenRmdir(w: Workspace, name: string) returns (made: Result<PathArg, WsError>, removed: Result<PathArg, WsError>)
    requires w.fs.Valid() && w.defaultPath in w.fs.dirs
    requires w.defaultPath + [name] !in w.fs.dirs && w.defaultPath + [name] !in w.fs.files
    modifies w.fs
    ensures made == Success(Abs(w.defaultPath + [name])) && removed == made
    ensures w.fs.dirs == old(w.fs.dirs) && w.fs.files == old(w.fs.files)
  {
    ghost var t := w.defaultPath + [name];
    ghost var dirs0, files0 := w.fs.dirs, w.fs.files;
    AncestorsAreDirs(dirs0, files0, w.defaultPath);
    FileAboveStep(files0, t);
    AncestryOfDir(dirs0, files0, w.defaultPath);
    AncestryStep(t);
    assert t[..|t| - 1] == w.defaultPath;
    made := w.Mkdir(Str(Rel([name])), Empty, false);
    assert w.fs.dirs == dirs0 + {t};
    removed := w.Rmdir(Str(Rel([name])), Empty);
    RemoveFreshLeaf(dirs0, files0, t);
  }
}
